/** The weak entity tag of one machine: a digest of its MAC and profile fields, each ended by a
    NUL, then of its params in key order. The digest stands for the truncated SHA-256 in hex. */
module ETag {
  import opened FleetTypes
  import opened Sorting
  import opened Text
  import FleetFile

  function Fields(mac: string, p: Profile): seq<string> {
    [mac, p.boot, p.name, p.cloudInit, p.preseed, p.kickstart, p.ipxeScript]
  }

  function Pairs(ks: seq<string>, params: map<string, string>): seq<string>
    requires forall k | k in ks :: k in params
  {
    if ks == [] then [] else [ks[0], params[ks[0]]] + Pairs(ks[1..], params)
  }

  /** All the strings that are hashed, in order. */
  ghost function Hashed(mac: string, p: Profile): seq<string> {
    Fields(mac, p) + Pairs(SortedKeys(p.params), p.params)
  }

  ghost function Tag(digest: string -> string, mac: string, p: Profile): string {
    "W/\"" + digest(Terminated(Hashed(mac, p))) + "\""
  }

  /** profileETag: whatever order the params map is ranged over, the tag is the same. */
  method ProfileETag(digest: string -> string, mac: string, p: Profile) returns (etag: string)
    ensures etag == Tag(digest, mac, p)
  {
    var h, fields := "", Fields(mac, p);
    for i := 0 to |fields|
      invariant h == Terminated(fields[..i])
    {
      FieldStep(fields, i);
      h := h + fields[i] + [NUL];
    }
    assert fields[..|fields|] == fields && fields + Pairs([], p.params) == fields;
    var keys := CollectSorted(p.params);
    for i := 0 to |keys|
      invariant keys == SortedKeys(p.params)
      invariant h == Terminated(fields + Pairs(keys[..i], p.params))
    {
      PairStep(fields, keys, i, p.params);
      h := h + keys[i] + [NUL];
      h := h + p.params[keys[i]] + [NUL];
    }
    assert keys[..|keys|] == keys;
    etag := "W/\"" + digest(h) + "\"";
  }

  lemma FieldStep(xs: seq<string>, i: nat)
    requires i < |xs|
    ensures Terminated(xs[..i + 1]) == Terminated(xs[..i]) + xs[i] + [NUL]
  {
    assert xs[..i + 1] == xs[..i] + [xs[i]];
    TerminatedConcat(xs[..i], [xs[i]]);
    OneField(xs[i]);
    assert Terminated(xs[..i]) + (xs[i] + [NUL]) == Terminated(xs[..i]) + xs[i] + [NUL];
  }

  lemma PairStep(fields: seq<string>, keys: seq<string>, i: nat, params: map<string, string>)
    requires i < |keys| && forall k | k in keys :: k in params
    ensures Terminated(fields + Pairs(keys[..i + 1], params)) ==
            Terminated(fields + Pairs(keys[..i], params)) + keys[i] + [NUL] + params[keys[i]] + [NUL]
  {
    var k, done := keys[i], fields + Pairs(keys[..i], params);
    PairsSnoc(keys[..i], k, params);
    assert keys[..i + 1] == keys[..i] + [k];
    assert fields + Pairs(keys[..i + 1], params) == done + [k, params[k]];
    TerminatedConcat(done, [k, params[k]]);
    TwoFields(k, params[k]);
    assert Terminated(done) + (k + [NUL] + params[k] + [NUL]) == Terminated(done) + k + [NUL] + params[k] + [NUL];
  }

  lemma OneField(x: string)
    ensures Terminated([x]) == x + [NUL]
  {
    assert [x][1..] == [];
  }

  lemma TwoFields(x: string, y: string)
    ensures Terminated([x, y]) == x + [NUL] + y + [NUL]
  {
    assert [x, y][1..] == [y];
    OneField(y);
    assert Terminated([x, y]) == x + [NUL] + (y + [NUL]);
  }

  lemma {:induction false} PairsSnoc(ks: seq<string>, k: string, params: map<string, string>)
    requires k in params && forall x | x in ks :: x in params
    ensures Pairs(ks + [k], params) == Pairs(ks, params) + [k, params[k]]
  {
    if ks == [] {
      assert [] + [k] == [k] && [k][1..] == [];
    } else {
      assert (ks + [k])[1..] == ks[1..] + [k];
      PairsSnoc(ks[1..], k, params);
    }
  }

  lemma {:induction false} PairsInjective(ks: seq<string>, m: map<string, string>, ls: seq<string>, n: map<string, string>)
    requires forall k | k in ks :: k in m
    requires forall k | k in ls :: k in n
    requires Pairs(ks, m) == Pairs(ls, n)
    ensures ks == ls && forall k | k in ks :: k in n && m[k] == n[k]
    decreases |ks|
  {
    var a, b := Pairs(ks, m), Pairs(ls, n);
    assert ks == [] <==> a == [];
    assert ls == [] <==> b == [];
    if ks != [] {
      assert a[0] == ks[0] && b[0] == ls[0] && a[1] == m[ks[0]] && b[1] == n[ls[0]];
      assert a[2..] == Pairs(ks[1..], m) && b[2..] == Pairs(ls[1..], n);
      PairsInjective(ks[1..], m, ls[1..], n);
      assert ks == [ks[0]] + ks[1..] && ls == [ls[0]] + ls[1..];
    }
  }

  ghost predicate Injective(digest: string -> string) {
    forall x, y :: digest(x) == digest(y) ==> x == y
  }

  /** No hashed field of the entry contains a NUL. */
  ghost predicate NulFreeEntry(mac: string, p: Profile) {
    && NulFree(Fields(mac, p))
    && forall k | k in p.params :: NUL !in k && NUL !in p.params[k]
  }

  lemma {:induction false} PairsNulFree(ks: seq<string>, params: map<string, string>)
    requires forall k | k in ks :: k in params && NUL !in k && NUL !in params[k]
    ensures NulFree(Pairs(ks, params))
  {
    if ks != [] { PairsNulFree(ks[1..], params); }
  }

  /** Every field but the rescue path. */
  predicate SameHashedFields(p: Profile, q: Profile) {
    p.(rescue := "") == q.(rescue := "")
  }

  /** Two NUL-free entries carry the same tag exactly when they agree on the MAC and on every
      field except Rescue, which the tag leaves out. */
  lemma TagIdentifies(digest: string -> string, mac: string, p: Profile, mac': string, p': Profile)
    requires Injective(digest)
    requires NulFreeEntry(mac, p) && NulFreeEntry(mac', p')
    ensures Tag(digest, mac, p) == Tag(digest, mac', p') <==> mac == mac' && SameHashedFields(p, p')
  {
    var d, d' := digest(Terminated(Hashed(mac, p))), digest(Terminated(Hashed(mac', p')));
    if Tag(digest, mac, p) == Tag(digest, mac', p') {
      Unwrap(d, d');
      PairsNulFree(SortedKeys(p.params), p.params);
      PairsNulFree(SortedKeys(p'.params), p'.params);
      TerminatedInjective(Hashed(mac, p), Hashed(mac', p'));
      HashedInjective(mac, p, mac', p');
    }
  }

  lemma Unwrap(d: string, d': string)
    requires "W/\"" + d + "\"" == "W/\"" + d' + "\""
    ensures d == d'
  {
    var t, t' := "W/\"" + d + "\"", "W/\"" + d' + "\"";
    assert d == t[3..|t| - 1] && d' == t'[3..|t'| - 1];
  }

  lemma HashedInjective(mac: string, p: Profile, mac': string, p': Profile)
    requires Hashed(mac, p) == Hashed(mac', p')
    ensures mac == mac' && SameHashedFields(p, p')
  {
    var x, x' := Hashed(mac, p), Hashed(mac', p');
    assert x[0] == x'[0] && x[1] == x'[1] && x[2] == x'[2] && x[3] == x'[3] && x[4] == x'[4] && x[5] == x'[5] && x[6] == x'[6];
    hide SortedKeys, Pairs;
    var ks, ks' := SortedKeys(p.params), SortedKeys(p'.params);
    assert x[7..] == Pairs(ks, p.params) && x'[7..] == Pairs(ks', p'.params);
    ParamsInjective(p.params, p'.params);
  }

  lemma ParamsInjective(kv: map<string, string>, kv': map<string, string>)
    requires Pairs(SortedKeys(kv), kv) == Pairs(SortedKeys(kv'), kv')
    ensures kv == kv'
  {
    hide SortedKeys, Pairs;
    PairsInjective(SortedKeys(kv), kv, SortedKeys(kv'), kv');
    assert forall k :: k in kv <==> k in kv';
  }

  /** A tag is weak: a quoted digest behind W/. */
  lemma TagIsWeak(digest: string -> string, mac: string, p: Profile)
    ensures var t := Tag(digest, mac, p);
      && |t| >= 4 && t[0] == 'W' && t[1] == '/' && t[2] == '"' && t[|t| - 1] == '"'
      && t[3..|t| - 1] == digest(Terminated(Hashed(mac, p)))
  {
    hide Hashed, Terminated;
  }

  lemma {:induction false} PairsAt(ks: seq<string>, params: map<string, string>, i: nat)
    requires forall k | k in ks :: k in params
    ensures |Pairs(ks, params)| == 2 * |ks|
    ensures i < |ks| ==> Pairs(ks, params)[2 * i] == ks[i] && Pairs(ks, params)[2 * i + 1] == params[ks[i]]
    decreases |ks|
  {
    if ks != [] {
      PairsAt(ks[1..], params, if i > 0 then i - 1 else 0);
      var rest := Pairs(ks[1..], params);
      assert Pairs(ks, params) == [ks[0], params[ks[0]]] + rest;
      if 0 < i < |ks| {
        var j := 2 * (i - 1);
        assert Pairs(ks, params)[j + 2] == rest[j] == ks[i] && Pairs(ks, params)[j + 3] == rest[j + 1] == params[ks[i]];
      }
    }
  }

  /** The seven fields come first, then each param's key and value, by ascending key. */
  lemma HashedInOrder(mac: string, p: Profile, i: nat, j: nat)
    ensures var h := Hashed(mac, p);
      && |h| >= 7 && h[..7] == [mac, p.boot, p.name, p.cloudInit, p.preseed, p.kickstart, p.ipxeScript]
      && (8 + 2 * i < |h| ==> h[7 + 2 * i] in p.params && h[8 + 2 * i] == p.params[h[7 + 2 * i]])
      && (i < j && 8 + 2 * j < |h| ==> Less(h[7 + 2 * i], h[7 + 2 * j]))
  {
    hide SortedKeys, Pairs;
    var ks := SortedKeys(p.params);
    PairsAt(ks, p.params, i);
    PairsAt(ks, p.params, j);
    var h := Hashed(mac, p);
    assert h[..7] == Fields(mac, p) && h[7..] == Pairs(ks, p.params);
    assert forall k | 0 <= k < |h| - 7 :: h[k + 7] == Pairs(ks, p.params)[k];
    if i < j && 8 + 2 * j < |h| { assert KeyLess(StringKey(ks[i]), StringKey(ks[j])); }
  }

  /** With NULs inside fields the boundary between them is ambiguous: a cloud_init path that ends in
      a NUL can be moved behind the name, whatever the rest of the profile is, and the tag stays. If
      the one profile is accepted, so is the other. */
  lemma NulFieldsCollide(digest: string -> string, mac: string, q: Profile, b: string, files: Files)
    requires q.cloudInit == b + [NUL]
    ensures var p := q.(name := q.name + [NUL] + b, cloudInit := "");
      && !SameHashedFields(p, q) && Tag(digest, mac, p) == Tag(digest, mac, q)
      && (FleetFile.Admitted(q) ==> FleetFile.Admitted(p))
      && (ValidProfile(q, files) ==> ValidProfile(p, files))
  {
    hide SortedKeys, Pairs;
    var p := q.(name := q.name + [NUL] + b, cloudInit := "");
    assert |p.name| > |q.name|;
    var head, tail := [mac, q.boot], [q.preseed, q.kickstart, q.ipxeScript] + Pairs(SortedKeys(q.params), q.params);
    assert Hashed(mac, p) == head + ([p.name, ""] + tail);
    assert Hashed(mac, q) == head + ([q.name, q.cloudInit] + tail);
    TerminatedConcat(head, [p.name, ""] + tail);
    TerminatedConcat(head, [q.name, q.cloudInit] + tail);
    TerminatedConcat([p.name, ""], tail);
    TerminatedConcat([q.name, q.cloudInit], tail);
    TwoFields(p.name, "");
    TwoFields(q.name, q.cloudInit);
    assert p.name + [NUL] + "" + [NUL] == q.name + [NUL] + q.cloudInit + [NUL];
  }

  /** Two profiles that the HTTP layer and validateProfile both accept, and that share a tag under
      every digest. */
  lemma AcceptedProfilesCollide(digest: string -> string, mac: string)
    ensures var files := Files({}, {});
      var p := Profile("menu", "a" + [NUL] + "/b", "", "", "", "", "", map[]);
      var q := Profile("menu", "a", "/b" + [NUL], "", "", "", "", map[]);
      && FleetFile.Admitted(p) && FleetFile.Admitted(q) && ValidProfile(p, files) && ValidProfile(q, files)
      && p != q && Tag(digest, mac, p) == Tag(digest, mac, q)
  {
    hide Tag;
    NulFieldsCollide(digest, mac, Profile("menu", "a", "/b" + [NUL], "", "", "", "", map[]), "/b", Files({}, {}));
  }
}
