/** Filling one target directory of the asset cache: download an ISO, extract the files the target
    needs, write the manifest. The process may stop after any filesystem step. */
module Fetch {
  import opened Sorting

  /** SHA-256 with no collisions: a digest is the content it was taken of. */
  datatype Digest = Sha256(of: string)

  datatype Asset = Asset(size: nat, sha256: Digest)

  datatype Manifest = Manifest(target: string, source: string, fetchedAt: int, assets: map<string, Asset>)

  /** A file holds bytes, or the JSON of a manifest. */
  datatype File = Data(bytes: string) | Doc(manifest: Manifest)

  /** The files of one target directory, by path relative to it. */
  type Files = map<string, File>

  /** isoPath: where each wanted file lies inside the ISO. */
  datatype Spec = Spec(name: string, isoURL: string, isoPath: map<string, string>)

  datatype Option<T> = None | Some(value: T)

  const MANIFEST := ".pxe-beacon-fetched"
  const MANIFEST_TMP := ".pxe-beacon-fetched.tmp"
  const ISO := "_download.iso"
  const PART := ".part"

  function Temps(spec: Spec): set<string> {
    {ISO, ISO + PART, MANIFEST_TMP} + set d | d in spec.isoPath :: d + PART
  }

  /** No file of the target clashes with the names Fetch uses for itself. */
  ghost predicate SafeNames(spec: Spec) {
    MANIFEST !in Temps(spec) && forall d | d in spec.isoPath :: d != MANIFEST && d !in Temps(spec)
  }

  const TARGETS: map<string, Spec> := map[
    "ubuntu-22.04" := Ubuntu("ubuntu-22.04", "22.04/ubuntu-22.04.5"),
    "ubuntu-24.04" := Ubuntu("ubuntu-24.04", "24.04/ubuntu-24.04.4"),
    "systemrescue" := Spec("systemrescue",
                           "https://fastly-cdn.system-rescue.org/" + "releases/13.00/systemrescue-13.00-amd64.iso",
                           map[
                             "sysresccd/boot/x86_64/vmlinuz" := "/sysresccd/boot/x86_64/vmlinuz",
                             "sysresccd/boot/x86_64/sysresccd.img" := "/sysresccd/boot/x86_64/sysresccd.img",
                             "sysresccd/x86_64/airootfs.sfs" := "/sysresccd/x86_64/airootfs.sfs"
                           ])
  ]

  function Ubuntu(name: string, release: string): Spec {
    Spec(name, "https://releases.ubuntu.com/" + release + "-live-server-amd64.iso",
         map["vmlinuz" := "/casper/vmlinuz",
             "initrd" := "/casper/initrd",
             "filesystem.squashfs" := "/casper/ubuntu-server-minimal.squashfs"])
  }

  predicate PlainName(d: string) {
    d != "" && d[0] != '.' && d[0] != '_' && d[|d| - 1] != 't'
  }

  lemma PlainNamesAreSafe(spec: Spec)
    requires forall d | d in spec.isoPath :: PlainName(d)
    ensures SafeNames(spec)
  {
    forall e | e in spec.isoPath ensures MANIFEST != e + PART {
      assert (e + PART)[|e + PART| - 1] == 't' && MANIFEST[|MANIFEST| - 1] == 'd';
    }
    forall d, e | d in spec.isoPath && e in spec.isoPath ensures d != e + PART {
      assert (e + PART)[|e + PART| - 1] == 't';
    }
    assert |MANIFEST| < |MANIFEST_TMP| && MANIFEST[0] != ISO[0] && (ISO + PART)[0] == ISO[0];
  }

  ghost predicate Registry(targets: map<string, Spec>) {
    forall t | t in targets :: targets[t].name == t && SafeNames(targets[t])
  }

  lemma TargetsAreARegistry()
    ensures Registry(TARGETS)
  {
    hide SafeNames;
    assert PlainName("sysresccd/boot/x86_64/vmlinuz") && PlainName("sysresccd/boot/x86_64/sysresccd.img");
    assert PlainName("sysresccd/x86_64/airootfs.sfs");
    assert PlainName("vmlinuz") && PlainName("initrd") && PlainName("filesystem.squashfs");
    forall t | t in TARGETS ensures SafeNames(TARGETS[t]) {
      hide PlainName;
      PlainNamesAreSafe(TARGETS[t]);
    }
  }

  /** Which files each target takes from which ISO. */
  lemma TargetsAre()
    ensures TARGETS.Keys == {"ubuntu-22.04", "ubuntu-24.04", "systemrescue"}
    ensures TARGETS["ubuntu-22.04"].isoURL ==
            "https://releases.ubuntu.com/" + "22.04/ubuntu-22.04.5" + "-live-server-amd64.iso"
    ensures TARGETS["ubuntu-24.04"].isoURL ==
            "https://releases.ubuntu.com/" + "24.04/ubuntu-24.04.4" + "-live-server-amd64.iso"
    ensures TARGETS["systemrescue"].isoURL ==
            "https://fastly-cdn.system-rescue.org/" + "releases/13.00/systemrescue-13.00-amd64.iso"
    ensures forall t | t in {"ubuntu-22.04", "ubuntu-24.04"} ::
              TARGETS[t].isoPath == map["vmlinuz" := "/casper/vmlinuz", "initrd" := "/casper/initrd",
                                        "filesystem.squashfs" := "/casper/ubuntu-server-minimal.squashfs"]
    ensures TARGETS["systemrescue"].isoPath ==
            map["sysresccd/boot/x86_64/vmlinuz" := "/sysresccd/boot/x86_64/vmlinuz",
                "sysresccd/boot/x86_64/sysresccd.img" := "/sysresccd/boot/x86_64/sysresccd.img",
                "sysresccd/x86_64/airootfs.sfs" := "/sysresccd/x86_64/airootfs.sfs"]
  {
  }

  // ----- what a stop can leave behind -----

  predicate Readable(files: Files) {
    MANIFEST in files && files[MANIFEST].Doc?
  }

  predicate Populated(spec: Spec, files: Files) {
    Readable(files) && forall d | d in spec.isoPath :: d in files && files[d] != Data("")
  }

  /** The manifest tells the truth about every file of the target. */
  ghost predicate Consistent(spec: Spec, files: Files) {
    Readable(files) && forall d | d in spec.isoPath ::
                         && d in files && files[d].Data? && d in files[MANIFEST].manifest.assets
                         && files[MANIFEST].manifest.assets[d] == AssetOf(files[d].bytes)
  }

  function AssetOf(bytes: string): Asset {
    Asset(|bytes|, Sha256(bytes))
  }

  ghost function Durable(spec: Spec, files: Files): Files {
    files - Temps(spec)
  }

  type Image = map<string, string>

  /** The image has what the first k files of the target are copied from. */
  ghost predicate Provides(spec: Spec, img: Image, k: nat) {
    k <= |SortedKeys(spec.isoPath)| && forall d | d in SortedKeys(spec.isoPath)[..k] :: spec.isoPath[d] in img
  }

  /** The durable files once the first k files of the target are in place. */
  ghost function Stage(spec: Spec, img: Image, before: Files, k: nat): Files
    requires Provides(spec, img, k)
  {
    if k == 0 then Durable(spec, before)
    else
      var d := SortedKeys(spec.isoPath)[k - 1];
      Stage(spec, img, before, k - 1)[d := Data(img[spec.isoPath[d]])]
  }

  ghost function Total(spec: Spec): nat {
    |SortedKeys(spec.isoPath)|
  }

  ghost function NewManifest(spec: Spec, img: Image, now: int): Manifest
    requires Provides(spec, img, Total(spec))
  {
    Manifest(spec.name, spec.isoURL, now, map d | d in spec.isoPath :: AssetOf(img[spec.isoPath[d]]))
  }

  ghost function Done(spec: Spec, img: Image, before: Files, now: int): Files
    requires Provides(spec, img, Total(spec))
  {
    Stage(spec, img, before, Total(spec))[MANIFEST := Doc(NewManifest(spec, img, now))]
  }

  ghost predicate AtStage(spec: Spec, img: Image, before: Files, s: Files, k: nat) {
    Provides(spec, img, k) && Durable(spec, s) == Stage(spec, img, before, k)
  }

  ghost predicate Finished(spec: Spec, img: Image, before: Files, now: int, s: Files) {
    Provides(spec, img, Total(spec)) && Durable(spec, s) == Done(spec, img, before, now)
  }

  /** What a stop during a Fetch over `before` can leave: without an image nothing durable changes. */
  ghost predicate CrashState(spec: Spec, image: Option<Image>, before: Files, now: int, s: Files) {
    match image
    case None => Durable(spec, s) == Durable(spec, before)
    case Some(img) => (exists k: nat :: AtStage(spec, img, before, s, k)) || Finished(spec, img, before, now, s)
  }

  ghost predicate NotDone(spec: Spec, image: Option<Image>, before: Files, s: Files) {
    match image
    case None => Durable(spec, s) == Durable(spec, before)
    case Some(img) => exists k: nat :: AtStage(spec, img, before, s, k)
  }

  /** What one Fetch that had work to do left behind, the steps on the way included. */
  ghost predicate Ran(spec: Spec, image: Option<Image>, before: Files, now: int, t0: seq<Files>,
                      after: Files, t: seq<Files>, r: Option<Manifest>)
  {
    && t0 <= t
    && (forall i | |t0| <= i < |t| :: CrashState(spec, image, before, now, t[i]))
    && match r
       case None => NotDone(spec, image, before, after)
       case Some(m) =>
         && image.Some? && Finished(spec, image.value, before, now, after)
         && m == NewManifest(spec, image.value, now)
         && exists i :: |t0| <= i < |t| && AtStage(spec, image.value, before, t[i], Total(spec))
  }

  // ----- the filesystem -----

  datatype Read = Read(bytes: string, end: End)

  datatype End = More | Eof | Broken

  datatype Response = NoResponse | Response(status: int, body: seq<Read>)

  /** The whole body, if it was read to its end. */
  function Body(body: seq<Read>): Option<string> {
    if body == [] then None
    else
      match body[0].end
      case Broken => None
      case Eof => Some(body[0].bytes)
      case More => match Body(body[1..]) case None => None case Some(b) => Some(body[0].bytes + b)
  }

  function Contents(resp: Response, parse: string -> Option<Image>): Option<Image> {
    if resp.Response? && resp.status == 200 && Body(resp.body).Some? then parse(Body(resp.body).value) else None
  }

  /** The first n reads, taken together. */
  function Together(body: seq<Read>): string
  {
    if body == [] then "" else body[0].bytes + Together(body[1..])
  }

  /** A body is read whole exactly if it ends before it breaks off: it is then all that was read up to
      its end, the bytes that came with the end included. */
  lemma {:induction false} BodyIsWhole(body: seq<Read>, n: nat)
    requires n < |body| && body[n].end != More && forall i | 0 <= i < n :: body[i].end == More
    ensures Body(body) == if body[n].end == Eof then Some(Together(body[..n + 1])) else None
    decreases n
  {
    if n == 0 {
      assert body[..1][1..] == [] && body[0].bytes + "" == body[0].bytes;
    } else {
      BodyIsWhole(body[1..], n - 1);
      assert body[..n + 1][1..] == body[1..][..n];
    }
  }

  /** Only a 200 with a whole body that is an ISO image gives anything to extract. */
  lemma ContentsNeed(resp: Response, parse: string -> Option<Image>)
    ensures Contents(resp, parse).Some? <==>
            resp.Response? && resp.status == 200 && Body(resp.body).Some? && parse(Body(resp.body).value).Some?
    ensures Contents(resp, parse).Some? ==> Contents(resp, parse) == parse(Body(resp.body).value)
  {
  }

  // ----- what is left lying about -----

  /** A temporary file that is there afterwards was there before, or a step on it went wrong, or it is `but`. */
  ghost predicate NoLitter(spec: Spec, before: Files, after: Files, stuck: set<string>, but: set<string>) {
    forall t | t in Temps(spec) && t in after :: t in before || t in stuck || t in but
  }

  /** No temporary file came, and these went. */
  ghost predicate Gone(spec: Spec, before: Files, after: Files, gone: set<string>) {
    forall t | t in Temps(spec) && t in after :: t in before && t !in gone
  }

  ghost function Parts(dests: seq<string>): set<string> {
    set d | d in dests :: d + PART
  }

  /** No temporary file is there, but for an ISO that would not go. */
  ghost predicate Cleared(spec: Spec, after: Files, stuck: set<string>) {
    forall t | t in Temps(spec) && t in after :: t == ISO && ISO in stuck
  }

  lemma LitterAdds(spec: Spec, a: Files, b: Files, c: Files, stuck: set<string>, stuck': set<string>, but: set<string>)
    requires NoLitter(spec, a, b, stuck, but) && NoLitter(spec, b, c, stuck', {}) && stuck <= stuck'
    ensures NoLitter(spec, a, c, stuck', but)
  {
  }

  lemma FewerFiles(spec: Spec, a: Files, b: Files, stuck: set<string>)
    requires forall t | t in b :: t in a
    ensures NoLitter(spec, a, b, stuck, {})
  {
  }

  /** One more file extracted. */
  lemma GoneAdds(spec: Spec, a: Files, b: Files, c: Files, dests: seq<string>, k: nat)
    requires k < |dests| && Gone(spec, a, b, Parts(dests[..k])) && Gone(spec, b, c, {dests[k] + PART})
    ensures Gone(spec, a, c, Parts(dests[..k + 1]))
  {
    assert dests[..k + 1] == dests[..k] + [dests[k]];
  }

  lemma NothingDone(spec: Spec, a: Files, stuck: set<string>, dests: seq<string>)
    ensures NoLitter(spec, a, a, stuck, {}) && Gone(spec, a, a, Parts(dests[..0])) && dests[..|dests|] == dests
  {
  }

  /** Downloading, extracting, removing the ISO and publishing, one after the other. */
  lemma EndsCleared(spec: Spec, downloaded: Files, extracted: Files, removed: Files, after: Files, stuck: set<string>)
    requires ISO + PART !in downloaded && Gone(spec, downloaded, extracted, Parts(SortedKeys(spec.isoPath)))
    requires removed == extracted - {ISO} || (removed == extracted && ISO in stuck)
    requires Gone(spec, removed, after, {MANIFEST_TMP})
    ensures Cleared(spec, after, stuck)
  {
    forall t | t in Temps(spec) && t in after ensures t == ISO && ISO in stuck {
      assert t in removed && t in extracted && t in downloaded;
      forall d | d in spec.isoPath ensures d in SortedKeys(spec.isoPath) {}
    }
  }

  class Disk {
    var files: Files
    /** The files after every step taken so far: where a stop could have left them. */
    ghost var trace: seq<Files>
    /** Where creating, closing, renaming or removing went wrong. */
    ghost var stuck: set<string>

    constructor (files: Files)
      ensures this.files == files && trace == [] && stuck == {}
    {
      this.files, trace, stuck := files, [], {};
    }

    /** os.Create. Like every step, it may fail. */
    method Create(p: string) returns (ok: bool)
      modifies this
      ensures files == if ok then old(files)[p := Data("")] else old(files)
      ensures trace == old(trace) + [files] && stuck == if ok then old(stuck) else old(stuck) + {p}
    {
      ok := *;
      if ok { files := files[p := Data("")]; } else { stuck := stuck + {p}; }
      trace := trace + [files];
    }

    /** A failing write may have written part of it. */
    method Write(p: string, bytes: string) returns (ok: bool)
      requires p in files && files[p].Data?
      modifies this
      ensures exists n: nat :: n <= |bytes| && files == old(files)[p := Data(old(files)[p].bytes + bytes[..n])]
      ensures ok ==> files == old(files)[p := Data(old(files)[p].bytes + bytes)]
      ensures trace == old(trace) + [files] && stuck == old(stuck)
    {
      ok := *;
      var n :| 0 <= n <= |bytes|;
      if ok { n := |bytes|; }
      assert bytes[..|bytes|] == bytes;
      files := files[p := Data(files[p].bytes + bytes[..n])];
      trace := trace + [files];
    }

    /** os.WriteFile of a manifest; a failure may leave the file cut short. */
    method WriteDoc(p: string, m: Manifest) returns (ok: bool)
      modifies this
      ensures if ok then files == old(files)[p := Doc(m)] else files - {p} == old(files) - {p}
      ensures trace == old(trace) + [files] && stuck == if ok then old(stuck) else old(stuck) + {p}
    {
      ok := *;
      var cut: string := *;
      files := files[p := if ok then Doc(m) else Data(cut)];
      if !ok { stuck := stuck + {p}; }
      trace := trace + [files];
    }

    method Remove(p: string) returns (ok: bool)
      modifies this
      ensures files == if ok then old(files) - {p} else old(files)
      ensures trace == old(trace) + [files] && stuck == if ok then old(stuck) else old(stuck) + {p}
    {
      ok := *;
      if ok { files := files - {p}; } else { stuck := stuck + {p}; }
      trace := trace + [files];
    }

    method Rename(p: string, q: string) returns (ok: bool)
      requires p in files
      modifies this
      ensures files == if ok then (old(files) - {p})[q := old(files)[p]] else old(files)
      ensures trace == old(trace) + [files] && stuck == if ok then old(stuck) else old(stuck) + {p}
    {
      ok := *;
      if ok { files := (files - {p})[q := files[p]]; } else { stuck := stuck + {p}; }
      trace := trace + [files];
    }

    /** Since `from` every step left the files of one of these two kinds. */
    ghost predicate Only(spec: Spec, from: seq<Files>, a: Files, b: Files)
      reads this
    {
      && from <= trace
      && (forall i | |from| <= i < |trace| :: Durable(spec, trace[i]) == a || Durable(spec, trace[i]) == b)
      && (Durable(spec, files) == a || Durable(spec, files) == b)
    }

    /** downloadFile: read the body into dest.part, then rename. Only temporary files change. */
    method DownloadFile(ghost spec: Spec, resp: Response, dest: string) returns (ok: bool)
      requires dest in Temps(spec) && dest + PART in Temps(spec)
      modifies this
      ensures Only(spec, old(trace), old(Durable(spec, files)), old(Durable(spec, files)))
      ensures ok ==> resp.Response? && resp.status == 200 && Body(resp.body).Some? && dest in files && files[dest] == Data(Body(resp.body).value)
      ensures old(stuck) <= stuck && NoLitter(spec, old(files), files, stuck, if ok then {dest} else {})
      ensures ok ==> dest + PART !in files && forall t | t in files && t != dest :: t in old(files)
    {
      hide Durable, Temps, Body;
      if resp.NoResponse? || resp.status != 200 { return false; }
      var tmp := dest + PART;
      var created := Create(tmp);
      KeepsDurable(spec, old(files), tmp, Data(""));
      if !created { return false; }
      var i, eof := 0, false;
      assert resp.body[0..] == resp.body;
      assert Body(resp.body).Some? ==> "" + Body(resp.body).value == Body(resp.body).value;
      while !eof
        invariant i <= |resp.body|
        invariant Only(spec, old(trace), old(Durable(spec, files)), old(Durable(spec, files)))
        invariant tmp in files && files[tmp].Data?
        invariant !eof ==> Body(resp.body) == Before(files[tmp].bytes, Body(resp.body[i..]))
        invariant eof ==> Body(resp.body) == Some(files[tmp].bytes)
        invariant stuck == old(stuck) && forall t | t in files && t != tmp :: t in old(files)
        decreases |resp.body| - i, if eof then 0 else 1
      {
        var read := if i < |resp.body| then resp.body[i] else Read("", Broken);
        ghost var was := files;
        if |read.bytes| > 0 {
          var wrote := Write(tmp, read.bytes);
          KeepsDurable(spec, was, tmp, files[tmp]);
          if !wrote {
            DropsDurable(spec, files, tmp);
            var _ := Remove(tmp);
            return false;
          }
        }
        assert files[tmp] == Data(was[tmp].bytes + read.bytes);
        if i < |resp.body| { BodyStep(was[tmp].bytes, resp.body[i..]); }
        match read.end {
          case Eof => eof := true;
          case Broken =>
            DropsDurable(spec, files, tmp);
            var _ := Remove(tmp);
            return false;
          case More =>
        }
        i := i + 1;
      }
      var closed: bool := *;
      if !closed {
        stuck := stuck + {tmp};
        return false;
      }
      DropsDurable(spec, files, tmp);
      KeepsDurable(spec, files - {tmp}, dest, files[tmp]);
      ok := Rename(tmp, dest);
    }

    /** extractFile: copy one file of the image into dest.part, rename, hash what is there now. */
    method ExtractFile(ghost spec: Spec, img: Image, isoPath: string, dest: string) returns (ok: bool, asset: Asset)
      requires dest !in Temps(spec) && dest + PART in Temps(spec)
      modifies this
      ensures isoPath !in img ==> !ok && trace == old(trace) && files == old(files)
      ensures isoPath in img ==>
                Only(spec, old(trace), old(Durable(spec, files)), old(Durable(spec, files))[dest := Data(img[isoPath])])
      ensures ok ==> isoPath in img && asset == AssetOf(img[isoPath])
      ensures ok ==> Durable(spec, files) == old(Durable(spec, files))[dest := Data(img[isoPath])]
      ensures old(stuck) <= stuck && NoLitter(spec, old(files), files, stuck, {})
      ensures ok ==> Gone(spec, old(files), files, {dest + PART})
    {
      hide Durable, Temps;
      ok, asset := false, Asset(0, Sha256(""));
      if isoPath !in img { return; }
      var tmp, content := dest + PART, img[isoPath];
      var created := Create(tmp);
      KeepsDurable(spec, old(files), tmp, Data(""));
      if !created { return; }
      var n := 0;
      while n < |content|
        invariant n <= |content|
        invariant Only(spec, old(trace), old(Durable(spec, files)), old(Durable(spec, files)))
        invariant tmp in files && files[tmp] == Data(content[..n])
        invariant stuck == old(stuck) && forall t | t in files && t != tmp :: t in old(files)
      {
        var m := if |content| - n > 32768 then n + 32768 else |content|;
        ghost var was := files;
        var wrote := Write(tmp, content[n..m]);
        KeepsDurable(spec, was, tmp, files[tmp]);
        if !wrote {
          DropsDurable(spec, files, tmp);
          var _ := Remove(tmp);
          return;
        }
        assert content[..n] + content[n..m] == content[..m];
        n := m;
      }
      assert content[..n] == content;
      var closed: bool := *;
      DropsDurable(spec, files, tmp);
      if !closed {
        var _ := Remove(tmp);
        return;
      }
      SetsDurable(spec, files - {tmp}, dest, files[tmp]);
      var renamed := Rename(tmp, dest);
      if !renamed { return; }
      var hashed: bool := *;
      if !hashed { return; }
      ok, asset := true, Asset(|content|, Sha256(files[dest].bytes));
    }

    /** WriteManifest: write beside, then rename. */
    method WriteManifest(ghost spec: Spec, m: Manifest) returns (ok: bool)
      requires SafeNames(spec)
      modifies this
      ensures Only(spec, old(trace), old(Durable(spec, files)), old(Durable(spec, files))[MANIFEST := Doc(m)])
      ensures Durable(spec, files) == if ok then old(Durable(spec, files))[MANIFEST := Doc(m)] else old(Durable(spec, files))
      ensures ok ==> exists i :: |old(trace)| <= i < |trace| && Durable(spec, trace[i]) == old(Durable(spec, files))
      ensures old(stuck) <= stuck && NoLitter(spec, old(files), files, stuck, {})
      ensures ok ==> Gone(spec, old(files), files, {MANIFEST_TMP})
    {
      var wrote := WriteDoc(MANIFEST_TMP, m);
      assert Durable(spec, files) == old(Durable(spec, files)) by {
        DropsDurable(spec, files, MANIFEST_TMP);
        DropsDurable(spec, old(files), MANIFEST_TMP);
      }
      forall t | t in files && t != MANIFEST_TMP ensures t in old(files) {
        assert t in files - {MANIFEST_TMP};
      }
      if !wrote { return false; }
      DropsDurable(spec, files, MANIFEST_TMP);
      SetsDurable(spec, files - {MANIFEST_TMP}, MANIFEST, Doc(m));
      hide Durable, Temps;
      ok := Rename(MANIFEST_TMP, MANIFEST);
      assert Durable(spec, trace[|old(trace)|]) == old(Durable(spec, files));
    }

    method IsPopulated(targets: map<string, Spec>, target: string) returns (r: Option<Manifest>)
      ensures r == if target in targets && Populated(targets[target], files) then Some(files[MANIFEST].manifest) else None
    {
      hide SortedKeys;
      if target !in targets || MANIFEST !in files || files[MANIFEST].Data? { return None; }
      var spec := targets[target];
      var dests := CollectSorted(spec.isoPath);
      for i := 0 to |dests|
        invariant forall d | d in dests[..i] :: d in files && files[d] != Data("")
      {
        if dests[i] !in files || files[dests[i]] == Data("") {
          assert dests[i] in spec.isoPath;
          return None;
        }
        assert dests[..i + 1] == dests[..i] + [dests[i]];
      }
      assert dests[..|dests|] == dests;
      return Some(files[MANIFEST].manifest);
    }

    /** `parse` reads an ISO image; `now` is the clock when extraction starts. */
    method Fetch(targets: map<string, Spec>, target: string, force: bool,
                 resp: Response, parse: string -> Option<Image>, now: int)
      returns (r: Option<Manifest>)
      requires Registry(targets)
      modifies this
      ensures target !in targets ==> r == None && files == old(files) && trace == old(trace)
      ensures target in targets && !force && Populated(targets[target], old(files)) ==>
                r == Some(old(files)[MANIFEST].manifest) && files == old(files) && trace == old(trace)
      ensures target in targets && (force || !Populated(targets[target], old(files))) ==>
                Ran(targets[target], Contents(resp, parse), old(files), now, old(trace), files, trace, r)
      ensures target in targets && (force || !Populated(targets[target], old(files))) ==>
                NoLitter(targets[target], old(files), files, stuck, {ISO}) && (r.Some? ==> Cleared(targets[target], files, stuck))
    {
      if target !in targets { return None; }
      hide Ran, SafeNames, Populated;
      var spec := targets[target];
      if !force {
        var m := IsPopulated(targets, target);
        if m.Some? { return m; }
      }
      r := Refill(spec, resp, parse, now);
    }

    method Refill(spec: Spec, resp: Response, parse: string -> Option<Image>, now: int) returns (r: Option<Manifest>)
      requires SafeNames(spec)
      modifies this
      ensures Ran(spec, Contents(resp, parse), old(files), now, old(trace), files, trace, r)
      ensures old(stuck) <= stuck && NoLitter(spec, old(files), files, stuck, {ISO})
      ensures r.Some? ==> Cleared(spec, files, stuck)
    {
      hide Durable, Stage, Provides, SafeNames, SortedKeys, AtStage, CrashState, NotDone, Finished, Contents;
      hide NewManifest, Temps;
      hide NoLitter, Gone, Cleared, Parts;
      var image := Open(spec, resp, parse);
      ghost var fetched, stuck1 := files, stuck;
      ghost var contents := Contents(resp, parse);
      forall s | s == files || s in trace[|old(trace)|..]
        ensures CrashState(spec, contents, old(files), now, s) && NotDone(spec, contents, old(files), s)
        ensures contents.Some? ==> AtStage(spec, contents.value, old(files), s, 0)
      {
        AtStart(spec, contents, old(files), now, s);
      }
      if image.None? { return None; }
      var img := image.value;
      var extracted, assets := ExtractAll(spec, img, old(files), now);
      ghost var was, stuck2 := files, stuck;
      LitterAdds(spec, old(files), fetched, was, stuck1, stuck2, {ISO});
      if !extracted { return None; }
      DropsIso(spec, files);
      var _ := Remove(ISO);
      ghost var removed := files;
      FewerFiles(spec, was, removed, stuck);
      LitterAdds(spec, old(files), was, removed, stuck2, stuck, {ISO});
      StaysAt(spec, img, old(files), now, Total(spec), was, files);
      var m := Manifest(spec.name, spec.isoURL, now, assets);
      var written := Publish(spec, img, old(files), m);
      LitterAdds(spec, old(files), removed, files, stuck2, stuck, {ISO});
      if written { EndsCleared(spec, fetched, was, removed, files, stuck); }
      r := if written then Some(m) else None;
    }

    /** Download, open and parse. */
    method Open(spec: Spec, resp: Response, parse: string -> Option<Image>) returns (image: Option<Image>)
      modifies this
      ensures Only(spec, old(trace), old(Durable(spec, files)), old(Durable(spec, files)))
      ensures image.Some? ==> image == Contents(resp, parse)
      ensures old(stuck) <= stuck && NoLitter(spec, old(files), files, stuck, {ISO})
      ensures image.Some? ==> ISO + PART !in files && forall t | t in files && t != ISO :: t in old(files)
    {
      var dirMade: bool := *;
      if !dirMade { return None; }
      var downloaded := DownloadFile(spec, resp, ISO);
      if !downloaded {
        DropsDurable(spec, files, ISO);
        var _ := Remove(ISO);
        return None;
      }
      var isoOpened: bool := *;
      if !isoOpened { return None; }
      image := parse(files[ISO].bytes);
    }

    /** The extraction loop: one file of the target after the other, in sorted order. */
    method ExtractAll(spec: Spec, img: Image, ghost before: Files, ghost now: int)
      returns (ok: bool, assets: map<string, Asset>)
      requires SafeNames(spec) && AtStage(spec, img, before, files, 0)
      modifies this
      ensures old(trace) <= trace
      ensures forall i | |old(trace)| <= i < |trace| :: CrashState(spec, Some(img), before, now, trace[i])
      ensures NotDone(spec, Some(img), before, files)
      ensures ok ==> AtStage(spec, img, before, files, Total(spec)) && Provides(spec, img, Total(spec)) &&
                     Manifest(spec.name, spec.isoURL, now, assets) == NewManifest(spec, img, now)
      ensures old(stuck) <= stuck && NoLitter(spec, old(files), files, stuck, {})
      ensures ok ==> Gone(spec, old(files), files, Parts(SortedKeys(spec.isoPath)))
    {
      hide Durable, Stage, Provides, SortedKeys, AtStage, CrashState, NotDone, NoLitter, Gone, Parts;
      var dests := CollectSorted(spec.isoPath);
      assets := map[];
      StillAt(spec, img, before, now, 0, files);
      NothingDone(spec, files, stuck, dests);
      for k := 0 to |dests|
        invariant old(trace) <= trace
        invariant forall i | |old(trace)| <= i < |trace| :: CrashState(spec, Some(img), before, now, trace[i])
        invariant AtStage(spec, img, before, files, k) && NotDone(spec, Some(img), before, files)
        invariant Provides(spec, img, k) && assets == AssetsOf(spec, img, k)
        invariant old(stuck) <= stuck && NoLitter(spec, old(files), files, stuck, {})
        invariant Gone(spec, old(files), files, Parts(dests[..k]))
      {
        var d := dests[k];
        ghost var was, from, stuck1 := files, trace, stuck;
        var parent: bool := *;
        if !parent { return false, assets; }
        assert d in spec.isoPath && d !in Temps(spec) && d + PART in Temps(spec);
        var extracted, asset := ExtractFile(spec, img, spec.isoPath[d], d);
        forall s | s == files || s in trace[|from|..]
          ensures CrashState(spec, Some(img), before, now, s) && NotDone(spec, Some(img), before, s)
        {
          StageStep(spec, img, before, now, k, was, s);
        }
        LitterAdds(spec, old(files), was, files, stuck1, stuck, {});
        if !extracted { return false, assets; }
        GoneAdds(spec, old(files), was, files, dests, k);
        AtNext(spec, img, before, now, k, was, files);
        assets := assets[d := asset];
        AssetsStep(spec, img, k, assets);
      }
      AllAssets(spec, img, now);
      return true, assets;
    }

    method Publish(spec: Spec, img: Image, ghost before: Files, m: Manifest) returns (ok: bool)
      requires SafeNames(spec) && AtStage(spec, img, before, files, Total(spec)) && m == NewManifest(spec, img, m.fetchedAt)
      modifies this
      ensures old(trace) <= trace
      ensures forall i | |old(trace)| <= i < |trace| :: CrashState(spec, Some(img), before, m.fetchedAt, trace[i])
      ensures !ok ==> NotDone(spec, Some(img), before, files)
      ensures ok ==> Finished(spec, img, before, m.fetchedAt, files)
      ensures ok ==> exists i :: |old(trace)| <= i < |trace| && AtStage(spec, img, before, trace[i], Total(spec))
      ensures old(stuck) <= stuck && NoLitter(spec, old(files), files, stuck, {})
      ensures ok ==> Gone(spec, old(files), files, {MANIFEST_TMP})
    {
      hide Durable, Stage, Provides, SortedKeys, Temps, SafeNames;
      ok := WriteManifest(spec, m);
      forall s | s == files || s in trace[|old(trace)|..]
        ensures CrashState(spec, Some(img), before, m.fetchedAt, s)
      {
        if Durable(spec, s) == old(Durable(spec, files)) { StillAt(spec, img, before, m.fetchedAt, Total(spec), s); }
      }
      if !ok { StillAt(spec, img, before, m.fetchedAt, Total(spec), files); }
    }
  }

  function Before(b: string, rest: Option<string>): Option<string> {
    match rest case None => None case Some(r) => Some(b + r)
  }

  lemma BodyStep(b: string, body: seq<Read>)
    requires body != []
    ensures body[0].end == Eof ==> Before(b, Body(body)) == Some(b + body[0].bytes)
    ensures body[0].end == More ==> Before(b, Body(body)) == Before(b + body[0].bytes, Body(body[1..]))
  {
    if Body(body[1..]).Some? {
      var r := Body(body[1..]).value;
      assert b + (body[0].bytes + r) == b + body[0].bytes + r;
    }
  }

  lemma AtStart(spec: Spec, image: Option<Image>, before: Files, now: int, s: Files)
    requires Durable(spec, s) == Durable(spec, before)
    ensures CrashState(spec, image, before, now, s) && NotDone(spec, image, before, s)
    ensures image.Some? ==> AtStage(spec, image.value, before, s, 0)
  {
    if image.Some? { assert AtStage(spec, image.value, before, s, 0); }
  }

  lemma StillAt(spec: Spec, img: Image, before: Files, now: int, k: nat, s: Files)
    requires AtStage(spec, img, before, s, k)
    ensures CrashState(spec, Some(img), before, now, s) && NotDone(spec, Some(img), before, s)
    ensures Provides(spec, img, k)
  {
  }

  lemma StaysAt(spec: Spec, img: Image, before: Files, now: int, k: nat, was: Files, s: Files)
    requires AtStage(spec, img, before, was, k) && Durable(spec, s) == Durable(spec, was)
    ensures Provides(spec, img, k) && AtStage(spec, img, before, s, k)
    ensures CrashState(spec, Some(img), before, now, s) && NotDone(spec, Some(img), before, s)
  {
    StillAt(spec, img, before, now, k, s);
  }

  lemma StageStep(spec: Spec, img: Image, before: Files, now: int, k: nat, was: Files, s: Files)
    requires k < Total(spec) && AtStage(spec, img, before, was, k)
    requires var d := SortedKeys(spec.isoPath)[k];
      || Durable(spec, s) == Durable(spec, was)
      || (spec.isoPath[d] in img && Durable(spec, s) == Durable(spec, was)[d := Data(img[spec.isoPath[d]])])
    ensures CrashState(spec, Some(img), before, now, s) && NotDone(spec, Some(img), before, s)
  {
    if Durable(spec, s) == Durable(spec, was) {
      assert AtStage(spec, img, before, s, k);
    } else {
      AtNext(spec, img, before, now, k, was, s);
    }
  }

  lemma AtNext(spec: Spec, img: Image, before: Files, now: int, k: nat, was: Files, s: Files)
    requires k < Total(spec) && AtStage(spec, img, before, was, k)
    requires var d := SortedKeys(spec.isoPath)[k];
      spec.isoPath[d] in img && Durable(spec, s) == Durable(spec, was)[d := Data(img[spec.isoPath[d]])]
    ensures Provides(spec, img, k + 1) && AtStage(spec, img, before, s, k + 1)
    ensures CrashState(spec, Some(img), before, now, s) && NotDone(spec, Some(img), before, s)
  {
    hide SortedKeys;
    var ks := SortedKeys(spec.isoPath);
    assert ks[..k + 1] == ks[..k] + [ks[k]];
    StillAt(spec, img, before, now, k + 1, s);
  }

  ghost function AssetsOf(spec: Spec, img: Image, k: nat): map<string, Asset>
    requires Provides(spec, img, k)
  {
    map d | d in spec.isoPath && d in SortedKeys(spec.isoPath)[..k] :: AssetOf(img[spec.isoPath[d]])
  }

  lemma AssetsStep(spec: Spec, img: Image, k: nat, assets: map<string, Asset>)
    requires Provides(spec, img, k) && k < Total(spec) && Provides(spec, img, k + 1)
    requires var d := SortedKeys(spec.isoPath)[k];
      assets == AssetsOf(spec, img, k)[d := AssetOf(img[spec.isoPath[d]])]
    ensures assets == AssetsOf(spec, img, k + 1)
  {
    hide SortedKeys;
    var ks := SortedKeys(spec.isoPath);
    assert ks[..k + 1] == ks[..k] + [ks[k]];
  }

  lemma AllAssets(spec: Spec, img: Image, now: int)
    requires Provides(spec, img, Total(spec))
    ensures AssetsOf(spec, img, Total(spec)) == NewManifest(spec, img, now).assets
  {
    hide SortedKeys;
    var ks := SortedKeys(spec.isoPath);
    assert ks[..|ks|] == ks;
  }

  lemma KeepsDurable(spec: Spec, files: Files, p: string, f: File)
    requires p in Temps(spec)
    ensures Durable(spec, files[p := f]) == Durable(spec, files)
  {
  }

  lemma DropsDurable(spec: Spec, files: Files, p: string)
    requires p in Temps(spec)
    ensures Durable(spec, files - {p}) == Durable(spec, files)
  {
  }

  lemma DropsIso(spec: Spec, files: Files)
    ensures Durable(spec, files - {ISO}) == Durable(spec, files)
  {
  }

  lemma SetsDurable(spec: Spec, files: Files, p: string, f: File)
    requires p !in Temps(spec)
    ensures Durable(spec, files[p := f]) == Durable(spec, files)[p := f]
  {
  }

  // ----- what a stop leaves behind -----

  lemma {:induction false} StageFile(spec: Spec, img: Image, before: Files, k: nat, p: string)
    requires SafeNames(spec) && Provides(spec, img, k) && p !in Temps(spec)
    ensures p in SortedKeys(spec.isoPath)[..k] ==>
              p in Stage(spec, img, before, k) && Stage(spec, img, before, k)[p] == Data(img[spec.isoPath[p]])
    ensures p !in SortedKeys(spec.isoPath)[..k] ==> SameAt(Stage(spec, img, before, k), before, p)
    decreases k
  {
    hide SortedKeys, Temps;
    if k > 0 {
      var ks := SortedKeys(spec.isoPath);
      assert ks[..k] == ks[..k - 1] + [ks[k - 1]];
      StageFile(spec, img, before, k - 1, p);
    }
  }

  predicate SameAt(a: Files, b: Files, p: string) {
    (p in a <==> p in b) && (p in a ==> a[p] == b[p])
  }

  lemma DurableFile(spec: Spec, files: Files, p: string)
    requires p !in Temps(spec)
    ensures SameAt(Durable(spec, files), files, p)
  {
  }

  /** Wherever the process stops, each file of the target is its complete old or its complete new
      content; anything that is not of the target, nor the manifest, is as it was. */
  lemma FilesAreWhole(spec: Spec, image: Option<Image>, before: Files, now: int, s: Files, p: string)
    requires SafeNames(spec) && CrashState(spec, image, before, now, s) && p !in Temps(spec)
    ensures p in spec.isoPath && !SameAt(s, before, p) ==>
              && image.Some? && spec.isoPath[p] in image.value
              && p in s && s[p] == Data(image.value[spec.isoPath[p]])
    ensures p !in spec.isoPath && p != MANIFEST ==> SameAt(s, before, p)
  {
    DurableFile(spec, s, p);
    DurableFile(spec, before, p);
    hide SortedKeys, Temps, Durable;
    if image.Some? {
      var img := image.value;
      if Finished(spec, img, before, now, s) {
        StageFile(spec, img, before, Total(spec), p);
      } else {
        var k: nat :| AtStage(spec, img, before, s, k);
        StageFile(spec, img, before, k, p);
      }
    }
  }

  lemma ManifestFile(spec: Spec, image: Option<Image>, before: Files, now: int, s: Files)
    requires SafeNames(spec) && CrashState(spec, image, before, now, s)
    ensures SameAt(s, before, MANIFEST) || (image.Some? && Finished(spec, image.value, before, now, s))
  {
    DurableFile(spec, s, MANIFEST);
    DurableFile(spec, before, MANIFEST);
    hide SortedKeys, Temps, Durable;
    if image.Some? && !Finished(spec, image.value, before, now, s) {
      var k: nat :| AtStage(spec, image.value, before, s, k);
      StageFile(spec, image.value, before, k, MANIFEST);
    }
  }

  /** A finished Fetch: the manifest is true of every file, and the target counts as populated
      unless the image held an empty file. */
  lemma FinishedIsConsistent(spec: Spec, img: Image, before: Files, now: int, s: Files)
    requires SafeNames(spec) && Finished(spec, img, before, now, s)
    ensures Consistent(spec, s) && s[MANIFEST] == Doc(NewManifest(spec, img, now))
    ensures var m := s[MANIFEST].manifest;
      && m.target == spec.name && m.source == spec.isoURL && m.fetchedAt == now && m.assets.Keys == spec.isoPath.Keys
      && forall d | d in spec.isoPath ::
           && d in s && s[d].Data? && spec.isoPath[d] in img && s[d].bytes == img[spec.isoPath[d]]
           && m.assets[d].size == |s[d].bytes| && m.assets[d].sha256 == Sha256(s[d].bytes)
    ensures Populated(spec, s) <==> forall d | d in spec.isoPath :: spec.isoPath[d] in img && img[spec.isoPath[d]] != ""
  {
    hide SortedKeys, Temps, Durable, Stage, Finished;
    DoneFiles(spec, img, before, now, s);
    forall d | d in spec.isoPath ensures d in s && s[d] == Data(img[spec.isoPath[d]]) {
      DoneFile(spec, img, before, now, s, d);
    }
  }

  lemma DoneFiles(spec: Spec, img: Image, before: Files, now: int, s: Files)
    requires SafeNames(spec) && Finished(spec, img, before, now, s)
    ensures forall d | d in spec.isoPath :: spec.isoPath[d] in img
    ensures Provides(spec, img, Total(spec)) && MANIFEST in s && s[MANIFEST] == Doc(NewManifest(spec, img, now))
  {
    hide SortedKeys, Stage, NewManifest;
    DurableFile(spec, s, MANIFEST);
    var ks := SortedKeys(spec.isoPath);
    assert ks[..|ks|] == ks;
  }

  lemma {:induction false} DoneFile(spec: Spec, img: Image, before: Files, now: int, s: Files, d: string)
    requires SafeNames(spec) && d in spec.isoPath
    ensures Finished(spec, img, before, now, s) ==> spec.isoPath[d] in img && d in s && s[d] == Data(img[spec.isoPath[d]])
  {
    if !Finished(spec, img, before, now, s) { return; }
    hide SortedKeys, Temps, Durable, Stage, NewManifest;
    var ks := SortedKeys(spec.isoPath);
    assert ks[..|ks|] == ks && d in ks;
    StageFile(spec, img, before, Total(spec), d);
    DurableFile(spec, s, d);
  }

  /** From a target without a manifest, a stop leaves it unpopulated until the manifest is renamed
      into place; from then on everything is complete and the manifest is true. */
  lemma PopulatedOnlyWhenFinished(spec: Spec, image: Option<Image>, before: Files, now: int, s: Files)
    requires SafeNames(spec) && CrashState(spec, image, before, now, s)
    requires !Readable(before) && Populated(spec, s)
    ensures image.Some? && Finished(spec, image.value, before, now, s) && Consistent(spec, s)
  {
    ManifestFile(spec, image, before, now, s);
    FinishedIsConsistent(spec, image.value, before, now, s);
  }

  ghost predicate StopsAreHonest(spec: Spec, before: Files, now: int) {
    forall image, s :: CrashState(spec, image, before, now, s) && Populated(spec, s) ==> Consistent(spec, s)
  }

  /** The limit of the protocol: a Fetch that has work to do is safe to interrupt exactly if no
      manifest is there at the start. An old one, left in place by Force or beside a missing file,
      outlives the files it describes, and RunPassesFalseManifest shows the run that passes through
      a populated target whose manifest is false. */
  lemma SafeToInterrupt(spec: Spec, before: Files, now: int)
    requires SafeNames(spec) && spec.isoPath != map[]
    ensures StopsAreHonest(spec, before, now) <==> !Readable(before)
  {
    if Readable(before) {
      var img, s := StaleManifest(spec, before, now);
      assert CrashState(spec, Some(img), before, now, s) && Populated(spec, s) && !Consistent(spec, s);
    } else {
      forall image, s | CrashState(spec, image, before, now, s) && Populated(spec, s) ensures Consistent(spec, s) {
        PopulatedOnlyWhenFinished(spec, image, before, now, s);
      }
    }
  }

  lemma StaleManifest(spec: Spec, before: Files, now: int) returns (img: Image, s: Files)
    requires SafeNames(spec) && Readable(before) && spec.isoPath != map[]
    ensures CrashState(spec, Some(img), before, now, s) && Populated(spec, s) && !Consistent(spec, s)
  {
    hide SortedKeys, Temps, Stage, Durable, CrashState, SafeNames;
    var d :| d in spec.isoPath;
    var listed := before[MANIFEST].manifest.assets;
    assert AssetOf("a") != AssetOf("b");
    var c := if d in listed && listed[d] == AssetOf("a") then "b" else "a";
    img, s := JustBeforeTheRename(spec, before, now, c);
    assert s[d] == Data(c);
  }

  /** With c as the content of every file, all of them in place and the manifest not yet renamed. */
  lemma JustBeforeTheRename(spec: Spec, before: Files, now: int, c: string) returns (img: Image, s: Files)
    requires SafeNames(spec)
    ensures AtStage(spec, img, before, s, Total(spec)) && CrashState(spec, Some(img), before, now, s)
    ensures SameAt(s, before, MANIFEST) && forall e | e in spec.isoPath :: e in s && s[e] == Data(c)
  {
    hide SortedKeys, Temps, Stage, Durable, CrashState;
    img := map e | e in spec.isoPath.Values :: c;
    var ks := SortedKeys(spec.isoPath);
    assert ks[..|ks|] == ks;
    s := Stage(spec, img, before, Total(spec));
    StageIsDurable(spec, img, before, Total(spec));
    StillAt(spec, img, before, now, Total(spec), s);
    forall e | e in spec.isoPath ensures e in s && s[e] == Data(c) {
      assert e in ks;
      StageFile(spec, img, before, Total(spec), e);
    }
    StageFile(spec, img, before, Total(spec), MANIFEST);
  }

  ghost predicate Serves(spec: Spec, img: Image) {
    forall d | d in spec.isoPath :: spec.isoPath[d] in img && img[spec.isoPath[d]] != ""
  }

  /** The old manifest is false of what the image holds for d. */
  ghost predicate Outdated(spec: Spec, img: Image, before: Files, d: string)
    requires Readable(before) && Serves(spec, img)
  {
    d in spec.isoPath &&
      (d in before[MANIFEST].manifest.assets ==> before[MANIFEST].manifest.assets[d] != AssetOf(img[spec.isoPath[d]]))
  }

  /** No successful run from such a manifest avoids the bad state: it passes through one that is
      populated and whose manifest is false. */
  lemma RunPassesFalseManifest(spec: Spec, img: Image, before: Files, now: int, t0: seq<Files>,
                               after: Files, t: seq<Files>, r: Option<Manifest>, d: string) returns (i: nat)
    requires SafeNames(spec) && Readable(before) && Serves(spec, img) && Outdated(spec, img, before, d)
    ensures r.Some? && Ran(spec, Some(img), before, now, t0, after, t, r) ==>
              |t0| <= i < |t| && Populated(spec, t[i]) && !Consistent(spec, t[i])
  {
    hide CrashState, Finished, NewManifest;
    i := 0;
    if r.None? || !Ran(spec, Some(img), before, now, t0, after, t, r) { return; }
    i :| |t0| <= i < |t| && AtStage(spec, img, before, t[i], Total(spec));
    AllInPlace(spec, img, before, t[i]);
    assert t[i][d] == Data(img[spec.isoPath[d]]);
  }

  lemma AllInPlace(spec: Spec, img: Image, before: Files, s: Files)
    requires SafeNames(spec) && AtStage(spec, img, before, s, Total(spec))
    ensures SameAt(s, before, MANIFEST)
    ensures forall d | d in spec.isoPath :: spec.isoPath[d] in img && d in s && s[d] == Data(img[spec.isoPath[d]])
  {
    hide SortedKeys, Temps, Stage, Durable;
    var ks := SortedKeys(spec.isoPath);
    assert ks[..|ks|] == ks;
    StageFile(spec, img, before, Total(spec), MANIFEST);
    DurableFile(spec, s, MANIFEST);
    forall d | d in spec.isoPath ensures spec.isoPath[d] in img && d in s && s[d] == Data(img[spec.isoPath[d]]) {
      assert d in ks;
      StageFile(spec, img, before, Total(spec), d);
      DurableFile(spec, s, d);
    }
  }

  /** Refetching a target that was true: every populated state on the way is true as well exactly if
      the image holds the very files that are already there. */
  lemma RefetchIsHonest(spec: Spec, img: Image, before: Files, now: int, t0: seq<Files>,
                        after: Files, t: seq<Files>, r: Option<Manifest>)
    requires SafeNames(spec) && Consistent(spec, before) && Serves(spec, img)
    requires r.Some? && Ran(spec, Some(img), before, now, t0, after, t, r)
    ensures (forall i | |t0| <= i < |t| && Populated(spec, t[i]) :: Consistent(spec, t[i])) <==>
            forall d | d in spec.isoPath :: before[d] == Data(img[spec.isoPath[d]])
  {
    hide CrashState, Finished, SafeNames, AtStage;
    if d :| d in spec.isoPath && before[d] != Data(img[spec.isoPath[d]]) {
      var i := RunPassesFalseManifest(spec, img, before, now, t0, after, t, r, d);
      assert Populated(spec, t[i]) && !Consistent(spec, t[i]);
    } else {
      forall i | |t0| <= i < |t| && Populated(spec, t[i]) ensures Consistent(spec, t[i]) {
        SameContentIsHonest(spec, img, before, now, t[i]);
      }
    }
  }

  lemma SameContentIsHonest(spec: Spec, img: Image, before: Files, now: int, s: Files)
    requires SafeNames(spec) && Consistent(spec, before) && CrashState(spec, Some(img), before, now, s)
    requires forall d | d in spec.isoPath :: spec.isoPath[d] in img && before[d] == Data(img[spec.isoPath[d]])
    ensures Consistent(spec, s)
  {
    hide CrashState, Finished, Temps;
    ManifestFile(spec, Some(img), before, now, s);
    if Finished(spec, img, before, now, s) {
      FinishedIsConsistent(spec, img, before, now, s);
    } else {
      forall d | d in spec.isoPath ensures d in s && s[d] == before[d] {
        FilesAreWhole(spec, Some(img), before, now, s, d);
      }
    }
  }

  lemma {:induction false} StageIsDurable(spec: Spec, img: Image, before: Files, k: nat)
    requires SafeNames(spec) && Provides(spec, img, k)
    ensures Durable(spec, Stage(spec, img, before, k)) == Stage(spec, img, before, k)
    decreases k
  {
    hide SortedKeys, Temps;
    if k > 0 {
      var d := SortedKeys(spec.isoPath)[k - 1];
      assert Provides(spec, img, k - 1) by {
        assert SortedKeys(spec.isoPath)[..k] == SortedKeys(spec.isoPath)[..k - 1] + [d];
      }
      StageIsDurable(spec, img, before, k - 1);
      assert d in spec.isoPath;
      assert d !in Temps(spec);
      SetsDurable(spec, Stage(spec, img, before, k - 1), d, Data(img[spec.isoPath[d]]));
    }
  }
}
