/** The contents of fleet.yaml and their correspondence with the fleet in memory. The YAML text
    itself stands for the configFile value it encodes. */
module FleetFile {
  import opened FleetTypes
  import opened Sorting
  import Mac
  import Paths

  datatype DefaultsEntry = DefaultsEntry(
    boot: string, cloudInit: string, preseed: string, kickstart: string, rescue: string,
    ipxeScript: string, params: map<string, string>)

  datatype MachineEntry = MachineEntry(
    mac: string, name: string, boot: string, cloudInit: string, preseed: string, kickstart: string,
    rescue: string, ipxeScript: string, params: map<string, string>)

  datatype ConfigFile = ConfigFile(defaults: DefaultsEntry, machines: seq<MachineEntry>)

  datatype LoadError = UnknownBoot | BadMac | DuplicateMac | BadProfile

  datatype Loaded<T> = Ok(value: T) | Failed(why: LoadError)

  function MergeParams(base: map<string, string>, over: map<string, string>): map<string, string> {
    base + over
  }

  /** Fleet.Lookup: own params overlaid on the defaults' params, or the defaults themselves. */
  function Lookup(st: Store, mac: string): Profile {
    match Mac.CanonicalMac(mac)
    case Bad => st.defaults
    case Good(canon) =>
      if canon in st.machines then
        var p := st.machines[canon];
        p.(params := MergeParams(st.defaults.params, p.params))
      else st.defaults
  }

  predicate IsBase(base: string) {
    Paths.IsAbs(base) && Paths.CleanAbs(base) == base
  }

  function EncodeMachine(base: string, m: Machine): (e: MachineEntry)
    requires IsBase(base)
    ensures e.mac == m.mac
  {
    var p := m.profile;
    MachineEntry(m.mac, p.name, p.boot, Paths.Relativize(base, p.cloudInit), Paths.Relativize(base, p.preseed),
                 Paths.Relativize(base, p.kickstart), Paths.Relativize(base, p.rescue),
                 Paths.Relativize(base, p.ipxeScript), p.params)
  }

  function EncodeDefaults(base: string, p: Profile): DefaultsEntry
    requires IsBase(base)
  {
    DefaultsEntry(p.boot, Paths.Relativize(base, p.cloudInit), Paths.Relativize(base, p.preseed),
                  Paths.Relativize(base, p.kickstart), Paths.Relativize(base, p.rescue),
                  Paths.Relativize(base, p.ipxeScript), p.params)
  }

  function EncodeAll(base: string, ms: seq<Machine>): (es: seq<MachineEntry>)
    requires IsBase(base)
    ensures |es| == |ms|
    ensures forall i | 0 <= i < |ms| :: es[i] == EncodeMachine(base, ms[i])
  {
    seq(|ms|, i requires 0 <= i < |ms| => EncodeMachine(base, ms[i]))
  }

  function EntryKey(e: MachineEntry): Key { (e.name, e.mac) }

  /** The file Save writes for a store. */
  ghost function Encode(base: string, st: Store): ConfigFile
    requires IsBase(base)
  {
    ConfigFile(EncodeDefaults(base, st.defaults), SortBy(EntryKey, EncodeAll(base, SomeListing(st.machines))))
  }

  function DecodeDefaults(base: string, files: Files, d: DefaultsEntry): Loaded<Profile>
    requires IsBase(base)
  {
    var boot := if d.boot == "" then "menu" else d.boot;
    if !ValidBoot(boot) then Failed(UnknownBoot)
    else
      var p := Profile(boot, "", Paths.ResolvePath(base, d.cloudInit), Paths.ResolvePath(base, d.preseed),
                       Paths.ResolvePath(base, d.kickstart), Paths.ResolvePath(base, d.rescue),
                       Paths.ResolvePath(base, d.ipxeScript), MergeParams(map[], d.params));
      if ValidProfile(p, files) then Ok(p) else Failed(BadProfile)
  }

  /** One step of reload's machine loop: the entry is checked against the MACs read so far. */
  function DecodeMachine(base: string, files: Files, e: MachineEntry, seen: set<string>): Loaded<Machine>
    requires IsBase(base)
  {
    match Mac.CanonicalMac(e.mac)
    case Bad => Failed(BadMac)
    case Good(canon) =>
      if canon in seen then Failed(DuplicateMac)
      else
        var boot := if e.boot == "" then "menu" else e.boot;
        if !ValidBoot(boot) then Failed(UnknownBoot)
        else
          var p := Profile(boot, e.name, Paths.ResolvePath(base, e.cloudInit), Paths.ResolvePath(base, e.preseed),
                           Paths.ResolvePath(base, e.kickstart), Paths.ResolvePath(base, e.rescue),
                           Paths.ResolvePath(base, e.ipxeScript), MergeParams(map[], e.params));
          if ValidProfile(p, files) then Ok(Machine(canon, p)) else Failed(BadProfile)
  }

  function DecodeMachines(base: string, files: Files, es: seq<MachineEntry>, acc: map<string, Profile>): Loaded<map<string, Profile>>
    requires IsBase(base)
    decreases |es|
  {
    if es == [] then Ok(acc)
    else match DecodeMachine(base, files, es[0], acc.Keys)
      case Failed(why) => Failed(why)
      case Ok(m) => DecodeMachines(base, files, es[1..], acc[m.mac := m.profile])
  }

  /** What reload makes of a file. */
  function Decode(base: string, files: Files, cfg: ConfigFile): Loaded<Store>
    requires IsBase(base)
  {
    match DecodeDefaults(base, files, cfg.defaults)
    case Failed(why) => Failed(why)
    case Ok(d) =>
      match DecodeMachines(base, files, cfg.machines, map[])
      case Failed(why) => Failed(why)
      case Ok(ms) => Ok(Store(ms, d))
  }

  predicate PathsRoundTrip(base: string, p: Profile)
    requires IsBase(base)
  {
    && Paths.RoundTrips(base, p.cloudInit) && Paths.RoundTrips(base, p.preseed)
    && Paths.RoundTrips(base, p.kickstart) && Paths.RoundTrips(base, p.rescue)
    && Paths.RoundTrips(base, p.ipxeScript)
  }

  /** A profile the file can hold: a known boot target and paths that survive the round trip. */
  predicate Storable(base: string, p: Profile)
    requires IsBase(base)
  {
    ValidBoot(p.boot) && PathsRoundTrip(base, p)
  }

  ghost predicate StorableStore(base: string, st: Store)
    requires IsBase(base)
  {
    && Storable(base, st.defaults) && st.defaults.name == ""
    && (forall mac | mac in st.machines :: Mac.IsCanonical(mac) && Storable(base, st.machines[mac]))
  }

  ghost predicate AllValid(st: Store, files: Files) {
    && ValidProfile(st.defaults, files)
    && (forall mac | mac in st.machines :: ValidProfile(st.machines[mac], files))
  }

  lemma PathsComeBack(base: string, p: Profile)
    requires IsBase(base)
    ensures PathsRoundTrip(base, p) <==>
      && Paths.ResolvePath(base, Paths.Relativize(base, p.cloudInit)) == p.cloudInit
      && Paths.ResolvePath(base, Paths.Relativize(base, p.preseed)) == p.preseed
      && Paths.ResolvePath(base, Paths.Relativize(base, p.kickstart)) == p.kickstart
      && Paths.ResolvePath(base, Paths.Relativize(base, p.rescue)) == p.rescue
      && Paths.ResolvePath(base, Paths.Relativize(base, p.ipxeScript)) == p.ipxeScript
  {
    Paths.ResolveOfRelativize(base, p.cloudInit);
    Paths.ResolveOfRelativize(base, p.preseed);
    Paths.ResolveOfRelativize(base, p.kickstart);
    Paths.ResolveOfRelativize(base, p.rescue);
    Paths.ResolveOfRelativize(base, p.ipxeScript);
  }

  /** One entry comes back as it went exactly when the machine is storable and valid. */
  lemma EntryRoundTrip(base: string, files: Files, m: Machine, seen: set<string>)
    requires IsBase(base) && m.mac !in seen
    ensures DecodeMachine(base, files, EncodeMachine(base, m), seen) == Ok(m)
      <==> Mac.IsCanonical(m.mac) && Storable(base, m.profile) && ValidProfile(m.profile, files)
  {
    hide Paths.ResolvePath, Paths.Relativize, Paths.RoundTrips, Mac.ParseMac, Mac.Clean, Mac.CanonicalMac, Mac.IsCanonical;
    var p := m.profile;
    PathsComeBack(base, p);
    if Mac.IsCanonical(m.mac) { Mac.CanonicalMacFixed(m.mac); }
    assert MergeParams(map[], p.params) == p.params;
  }

  lemma DefaultsRoundTrip(base: string, files: Files, p: Profile)
    requires IsBase(base)
    ensures DecodeDefaults(base, files, EncodeDefaults(base, p)) == Ok(p)
      <==> p.name == "" && Storable(base, p) && ValidProfile(p, files)
  {
    hide Paths.ResolvePath, Paths.Relativize, Paths.RoundTrips, ValidProfile;
    PathsComeBack(base, p);
    assert MergeParams(map[], p.params) == p.params;
  }

  lemma EntriesOfListing(base: string, m: map<string, Profile>, ms: seq<Machine>)
    requires IsBase(base) && IsListing(m, ms)
    ensures DistinctKeys(EntryKey, EncodeAll(base, ms))
    ensures forall e :: e in EncodeAll(base, ms) <==> e.mac in m && e == EncodeMachine(base, Machine(e.mac, m[e.mac]))
  {
    var es := EncodeAll(base, ms);
    forall e ensures e in es <==> e.mac in m && e == EncodeMachine(base, Machine(e.mac, m[e.mac])) {
      if e in es {
        var i :| 0 <= i < |es| && es[i] == e;
        assert ms[i] in ms;
      }
      if e.mac in m && e == EncodeMachine(base, Machine(e.mac, m[e.mac])) {
        assert Machine(e.mac, m[e.mac]) in ms;
        var i :| 0 <= i < |ms| && ms[i] == Machine(e.mac, m[e.mac]);
        assert es[i] == e;
      }
    }
  }

  /** The written list does not depend on the order the map was ranged over. */
  lemma SaveIgnoresMapOrder(base: string, m: map<string, Profile>, xs: seq<Machine>, ys: seq<Machine>)
    requires IsBase(base) && IsListing(m, xs) && IsListing(m, ys)
    ensures SortBy(EntryKey, EncodeAll(base, xs)) == SortBy(EntryKey, EncodeAll(base, ys))
  {
    EntriesOfListing(base, m, xs);
    EntriesOfListing(base, m, ys);
    SortIgnoresOrder(EntryKey, EncodeAll(base, xs), EncodeAll(base, ys));
  }

  /** The entries of a saved file: one for each machine, no MAC twice. */
  lemma SavedEntries(base: string, st: Store)
    requires IsBase(base)
    ensures var es := Encode(base, st).machines;
      && (forall e :: e in es <==> e.mac in st.machines && e == EncodeMachine(base, Machine(e.mac, st.machines[e.mac])))
      && (forall i, j | 0 <= i < j < |es| :: es[i].mac != es[j].mac)
      && Ascending(EntryKey, es)
  {
    var ms := SomeListing(st.machines);
    EntriesOfListing(base, st.machines, ms);
    SortBySorts(EntryKey, EncodeAll(base, ms));
    var es := Encode(base, st).machines;
    forall i, j | 0 <= i < j < |es| ensures es[i].mac != es[j].mac {
      assert es[i] in es && es[j] in es;
      KeyLessIsTotal(EntryKey(es[i]), EntryKey(es[j]));
    }
  }

  /** The file lists the machines by name and then MAC. */
  lemma SavedInOrder(base: string, st: Store, i: nat, j: nat)
    requires IsBase(base) && i < j < |Encode(base, st).machines|
    ensures var e, f := Encode(base, st).machines[i], Encode(base, st).machines[j];
      Text.Less(e.name, f.name) || (e.name == f.name && Text.Less(e.mac, f.mac))
  {
    hide Encode;
    SavedEntries(base, st);
    assert KeyLess(EntryKey(Encode(base, st).machines[i]), EntryKey(Encode(base, st).machines[j]));
  }

  lemma {:induction false} DecodeGood(base: string, files: Files, es: seq<MachineEntry>, acc: map<string, Profile>, m: map<string, Profile>)
    requires IsBase(base)
    requires forall i, j | 0 <= i < j < |es| :: es[i].mac != es[j].mac
    requires forall e | e in es :: e.mac in m && e.mac !in acc && e == EncodeMachine(base, Machine(e.mac, m[e.mac]))
    requires forall e | e in es :: Mac.IsCanonical(e.mac) && Storable(base, m[e.mac]) && ValidProfile(m[e.mac], files)
    requires forall k | k in acc :: k in m && acc[k] == m[k]
    requires forall k | k in m :: k in acc || exists e :: e in es && e.mac == k
    ensures DecodeMachines(base, files, es, acc) == Ok(m)
    decreases |es|
  {
    hide EncodeMachine, DecodeMachine, Storable, ValidProfile, Mac.IsCanonical, Mac.CanonicalMac;
    if es == [] {
      assert acc == m;
    } else {
      var e := es[0];
      assert e in es;
      EntryRoundTrip(base, files, Machine(e.mac, m[e.mac]), acc.Keys);
      var acc' := acc[e.mac := m[e.mac]];
      forall k | k in m ensures k in acc' || exists x :: x in es[1..] && x.mac == k {
        if k !in acc' {
          var x :| x in es && x.mac == k;
          assert x in es[1..];
        }
      }
      DecodeGood(base, files, es[1..], acc', m);
    }
  }

  lemma SeenOnlyRejects(base: string, files: Files, e: MachineEntry, seen: set<string>)
    requires IsBase(base) && DecodeMachine(base, files, e, seen).Ok?
    ensures DecodeMachine(base, files, e, {}) == DecodeMachine(base, files, e, seen)
    ensures var m := DecodeMachine(base, files, e, seen).value; Mac.CanonicalMac(e.mac) == Mac.Good(m.mac) && m.mac !in seen
  {
    hide Mac.ParseMac, Mac.Clean, Paths.ResolvePath, ValidProfile, ValidBoot;
  }

  /** No two entries of an accepted list spell the same MAC. */
  lemma {:induction false} DecodedDiffer(base: string, files: Files, es: seq<MachineEntry>, acc: map<string, Profile>)
    requires IsBase(base)
    ensures DecodeMachines(base, files, es, acc).Ok? ==>
              && (forall e | e in es :: Mac.CanonicalMac(e.mac).Good? && Mac.CanonicalMac(e.mac).mac !in acc)
              && (forall i, j | 0 <= i < j < |es| :: Mac.CanonicalMac(es[i].mac) != Mac.CanonicalMac(es[j].mac))
    decreases |es|
  {
    hide Mac.CanonicalMac, DecodeMachine;
    if es != [] && DecodeMachines(base, files, es, acc).Ok? {
      var m := DecodeMachine(base, files, es[0], acc.Keys).value;
      SeenOnlyRejects(base, files, es[0], acc.Keys);
      assert DecodeMachines(base, files, es, acc) == DecodeMachines(base, files, es[1..], acc[m.mac := m.profile]);
      DecodedDiffer(base, files, es[1..], acc[m.mac := m.profile]);
      assert es == [es[0]] + es[1..];
      forall j | 0 < j < |es| ensures Mac.CanonicalMac(es[0].mac) != Mac.CanonicalMac(es[j].mac) {
        assert es[j] in es[1..];
      }
    }
  }

  /** Whatever a reload accepted has canonical MACs, no MAC twice, and each entry is found under its
      own. */
  lemma {:induction false} DecodedEntries(base: string, files: Files, es: seq<MachineEntry>, acc: map<string, Profile>)
    requires IsBase(base)
    requires forall k | k in acc :: Mac.IsCanonical(k)
    ensures DecodeMachines(base, files, es, acc).Ok? ==>
              var r := DecodeMachines(base, files, es, acc).value;
              && (forall k | k in acc :: k in r && r[k] == acc[k])
              && (forall k | k in r :: Mac.IsCanonical(k))
              && (forall i, j | 0 <= i < j < |es| :: Mac.CanonicalMac(es[i].mac) != Mac.CanonicalMac(es[j].mac))
              && (forall e | e in es :: var d := DecodeMachine(base, files, e, {});
                    d.Ok? && d.value.mac in r && r[d.value.mac] == d.value.profile)
    decreases |es|
  {
    hide Mac.IsCanonical, Mac.CanonicalMac, DecodeMachine;
    DecodedDiffer(base, files, es, acc);
    if es != [] && DecodeMachines(base, files, es, acc).Ok? {
      var m := DecodeMachine(base, files, es[0], acc.Keys).value;
      SeenOnlyRejects(base, files, es[0], acc.Keys);
      assert DecodeMachines(base, files, es, acc) == DecodeMachines(base, files, es[1..], acc[m.mac := m.profile]);
      DecodedEntries(base, files, es[1..], acc[m.mac := m.profile]);
      var r := DecodeMachines(base, files, es, acc).value;
      assert m.mac in r && r[m.mac] == m.profile;
      assert es == [es[0]] + es[1..];
    }
  }

  lemma {:induction false} DecodedHasEntry(base: string, files: Files, es: seq<MachineEntry>, acc: map<string, Profile>, k: string)
    requires IsBase(base)
    ensures var r := DecodeMachines(base, files, es, acc);
      r.Ok? && k in r.value && k !in acc ==> exists e :: e in es && Mac.CanonicalMac(e.mac) == Mac.Good(k)
    decreases |es|
  {
    hide Mac.CanonicalMac, DecodeMachine;
    if es != [] && DecodeMachine(base, files, es[0], acc.Keys).Ok? {
      var m := DecodeMachine(base, files, es[0], acc.Keys).value;
      SeenOnlyRejects(base, files, es[0], acc.Keys);
      DecodedHasEntry(base, files, es[1..], acc[m.mac := m.profile], k);
      assert es == [es[0]] + es[1..];
    }
  }

  /** Reloading what Save wrote rebuilds exactly the fleet that was saved, whatever the map order,
      if and only if every MAC is canonical, every boot target is known, every side-file path
      survives the round trip, and the profiles pass validation at the time of the reload. */
  lemma SaveThenReload(base: string, files: Files, st: Store)
    requires IsBase(base)
    ensures Decode(base, files, Encode(base, st)) == Ok(st) <==> StorableStore(base, st) && AllValid(st, files)
  {
    hide EncodeMachine, DecodeMachine, EncodeDefaults, DecodeDefaults, Storable, ValidProfile, Mac.IsCanonical, Mac.CanonicalMac, DecodeMachines, SortBy;
    var cfg := Encode(base, st);
    SavedEntries(base, st);
    DefaultsRoundTrip(base, files, st.defaults);
    if StorableStore(base, st) && AllValid(st, files) {
      forall k | k in st.machines ensures exists e :: e in cfg.machines && e.mac == k {
        assert EncodeMachine(base, Machine(k, st.machines[k])) in cfg.machines;
      }
      DecodeGood(base, files, cfg.machines, map[], st.machines);
    }
    if Decode(base, files, cfg) == Ok(st) {
      DecodedEntries(base, files, cfg.machines, map[]);
      forall mac | mac in st.machines
        ensures Mac.IsCanonical(mac) && Storable(base, st.machines[mac]) && ValidProfile(st.machines[mac], files)
      {
        var m := Machine(mac, st.machines[mac]);
        assert EncodeMachine(base, m) in cfg.machines;
        Mac.CanonicalMacFixed(mac);
        SeenOnlyRejects(base, files, EncodeMachine(base, m), {});
        EntryRoundTrip(base, files, m, {});
      }
    }
  }

  /** What the HTTP layer lets through to the store: a known boot target, and side-file paths that
      are empty or rooted. */
  predicate Admitted(p: Profile) {
    && ValidBoot(p.boot)
    && Paths.Settled(p.cloudInit) && Paths.Settled(p.preseed) && Paths.Settled(p.kickstart)
    && Paths.Settled(p.rescue) && Paths.Settled(p.ipxeScript)
  }

  ghost predicate AdmittedStore(st: Store) {
    && Admitted(st.defaults)
    && (forall mac {:trigger Mac.IsCanonical(mac)} {:trigger Admitted(st.machines[mac])} |
          mac in st.machines :: Mac.IsCanonical(mac) && Admitted(st.machines[mac]))
  }

  /** Whatever a reload accepted, from a hand-written file too, is as admitted as a request. */
  lemma DecodedIsAdmitted(base: string, files: Files, cfg: ConfigFile)
    requires IsBase(base)
    ensures var d := Decode(base, files, cfg); d.Ok? ==> AdmittedStore(d.value)
  {
    hide DecodeMachine, DecodeMachines, Admitted, Mac.IsCanonical, Mac.CanonicalMac;
    var d := Decode(base, files, cfg);
    if d.Ok? {
      DefaultsAreAdmitted(base, files, cfg.defaults);
      DecodedEntries(base, files, cfg.machines, map[]);
      forall k | k in d.value.machines ensures Admitted(d.value.machines[k]) {
        DecodedHasEntry(base, files, cfg.machines, map[], k);
        var e :| e in cfg.machines && Mac.CanonicalMac(e.mac) == Mac.Good(k);
        EntryIsAdmitted(base, files, e);
      }
    }
  }

  lemma EntryIsAdmitted(base: string, files: Files, e: MachineEntry)
    requires IsBase(base)
    ensures var d := DecodeMachine(base, files, e, {});
      d.Ok? ==> Mac.CanonicalMac(e.mac) == Mac.Good(d.value.mac) && Admitted(d.value.profile)
  {
    hide Mac.CanonicalMac, Paths.CleanAbs, ValidProfile;
    assert forall p: string :: Paths.Settled(Paths.ResolvePath(base, p));
  }

  lemma DefaultsAreAdmitted(base: string, files: Files, e: DefaultsEntry)
    requires IsBase(base)
    ensures var d := DecodeDefaults(base, files, e); d.Ok? ==> Admitted(d.value)
  {
    hide Paths.CleanAbs, ValidProfile;
    assert forall p: string :: Paths.Settled(Paths.ResolvePath(base, p));
  }

  lemma MachineReadAgain(base: string, files: Files, files': Files, e: MachineEntry, seen: set<string>)
    requires IsBase(base) && DecodeMachine(base, files, e, seen).Ok?
    ensures var m, r := DecodeMachine(base, files, e, seen).value, DecodeMachine(base, files', e, seen);
      m.mac !in seen && if ValidProfile(m.profile, files') then r == Ok(m) else r == Failed(BadProfile)
  {
    hide Mac.CanonicalMac, Paths.ResolvePath, ValidProfile;
  }

  lemma {:induction false} MachinesReadAgain(base: string, files: Files, files': Files, es: seq<MachineEntry>, acc: map<string, Profile>)
    requires IsBase(base) && DecodeMachines(base, files, es, acc).Ok?
    ensures var ms, r := DecodeMachines(base, files, es, acc).value, DecodeMachines(base, files', es, acc);
      && (forall k | k in acc :: k in ms && ms[k] == acc[k])
      && (r.Ok? ==> r == Ok(ms))
      && (r.Ok? <==> forall k | k in ms && k !in acc :: ValidProfile(ms[k], files'))
    decreases |es|
  {
    hide DecodeMachine, ValidProfile;
    if es != [] {
      var m := DecodeMachine(base, files, es[0], acc.Keys).value;
      MachineReadAgain(base, files, files', es[0], acc.Keys);
      MachinesReadAgain(base, files, files', es[1..], acc[m.mac := m.profile]);
    }
  }

  lemma DefaultsReadAgain(base: string, files: Files, files': Files, e: DefaultsEntry)
    requires IsBase(base) && DecodeDefaults(base, files, e).Ok?
    ensures var p, r := DecodeDefaults(base, files, e).value, DecodeDefaults(base, files', e);
      if ValidProfile(p, files') then r == Ok(p) else r == Failed(BadProfile)
  {
    hide Paths.ResolvePath, ValidProfile;
  }

  /** A file that was read once, a hand-written one too, reads back as the same fleet or not at all:
      exactly if every profile in it is valid for the side files of that moment. */
  lemma ReadAgain(base: string, files: Files, files': Files, cfg: ConfigFile)
    requires IsBase(base) && Decode(base, files, cfg).Ok?
    ensures var st, r := Decode(base, files, cfg).value, Decode(base, files', cfg);
      (r.Ok? ==> r == Ok(st)) && (r.Ok? <==> AllValid(st, files'))
  {
    hide DecodeMachines, DecodeDefaults, ValidProfile;
    DefaultsReadAgain(base, files, files', cfg.defaults);
    MachinesReadAgain(base, files, files', cfg.machines, map[]);
  }

  lemma PathsStand(base: string, p: Profile)
    requires IsBase(base) && Admitted(p)
    ensures forall q: string | q in [p.cloudInit, p.preseed, p.kickstart, p.rescue, p.ipxeScript] ::
              var r := Paths.ResolvePath(base, Paths.Relativize(base, q));
              Paths.Settled(r) && Paths.Relativize(base, r) == Paths.Relativize(base, q)
  {
    forall q: string | q in [p.cloudInit, p.preseed, p.kickstart, p.rescue, p.ipxeScript]
      ensures var r := Paths.ResolvePath(base, Paths.Relativize(base, q));
        Paths.Settled(r) && Paths.Relativize(base, r) == Paths.Relativize(base, q)
    {
      Paths.EntryStands(base, q);
    }
  }

  lemma DecodedEntryStands(base: string, files: Files, m: Machine)
    requires IsBase(base) && Mac.IsCanonical(m.mac) && Admitted(m.profile)
    ensures var d := DecodeMachine(base, files, EncodeMachine(base, m), {});
      d.Ok? ==> d.value.mac == m.mac && Admitted(d.value.profile) && EncodeMachine(base, d.value) == EncodeMachine(base, m)
  {
    hide Paths.ResolvePath, Paths.Relativize, Paths.Settled, ValidProfile, Mac.CanonicalMac, Mac.IsCanonical;
    Mac.CanonicalMacFixed(m.mac);
    PathsStand(base, m.profile);
    assert MergeParams(map[], m.profile.params) == m.profile.params;
  }

  lemma DecodedDefaultsStand(base: string, files: Files, p: Profile)
    requires IsBase(base) && Admitted(p)
    ensures var d := DecodeDefaults(base, files, EncodeDefaults(base, p));
      d.Ok? ==> Admitted(d.value) && EncodeDefaults(base, d.value) == EncodeDefaults(base, p)
  {
    hide Paths.ResolvePath, Paths.Relativize, Paths.Settled, ValidProfile;
    PathsStand(base, p);
    assert MergeParams(map[], p.params) == p.params;
  }

  /** A reload may rewrite a path in memory, but never leaves memory and file apart: saving what it
      read would write the same file again. */
  lemma FileStands(base: string, files: Files, st: Store)
    requires IsBase(base) && AdmittedStore(st)
    ensures var d := Decode(base, files, Encode(base, st));
      d.Ok? ==> AdmittedStore(d.value) && Encode(base, d.value) == Encode(base, st)
  {
    hide EncodeMachine, DecodeMachine, EncodeDefaults, DecodeDefaults, DecodeMachines, Admitted, Mac.IsCanonical,
         Mac.CanonicalMac, SortBy, Encode;
    var cfg := Encode(base, st);
    var d := Decode(base, files, cfg);
    if d.Ok? {
      ReadBack(base, files, st, d.value);
      DecodedDefaultsStand(base, files, st.defaults);
      SavedEntries(base, st);
      SavedEntries(base, d.value);
      AscendingUnique(EntryKey, cfg.machines, Encode(base, d.value).machines);
      DefaultsOfFile(base, st);
      DefaultsOfFile(base, d.value);
    }
  }

  lemma DefaultsOfFile(base: string, st: Store)
    requires IsBase(base)
    ensures Encode(base, st).defaults == EncodeDefaults(base, st.defaults)
  {
  }

  lemma ReadBack(base: string, files: Files, st: Store, d: Store)
    requires IsBase(base) && AdmittedStore(st)
    ensures Decode(base, files, Encode(base, st)) == Ok(d) ==>
              && d.machines.Keys == st.machines.Keys
              && forall k | k in d.machines :: Admitted(d.machines[k]) &&
                   EncodeMachine(base, Machine(k, d.machines[k])) == EncodeMachine(base, Machine(k, st.machines[k]))
  {
    hide EncodeMachine, DecodeMachine, EncodeDefaults, DecodeDefaults, DecodeMachines, Admitted, Mac.IsCanonical,
         Mac.CanonicalMac, SortBy, Encode;
    if Decode(base, files, Encode(base, st)) != Ok(d) { return; }
    forall k | k in st.machines
      ensures k in d.machines && Admitted(d.machines[k])
      ensures EncodeMachine(base, Machine(k, d.machines[k])) == EncodeMachine(base, Machine(k, st.machines[k]))
    {
      ReadBackOne(base, files, st, d, k);
    }
    forall k | k in d.machines ensures k in st.machines {
      var es := Encode(base, st).machines;
      SavedEntries(base, st);
      DecodedHasEntry(base, files, es, map[], k);
      var e :| e in es && Mac.CanonicalMac(e.mac) == Mac.Good(k);
      Mac.CanonicalMacFixed(e.mac);
    }
  }

  lemma ReadBackOne(base: string, files: Files, st: Store, d: Store, k: string)
    requires IsBase(base) && AdmittedStore(st) && k in st.machines
    ensures Decode(base, files, Encode(base, st)) == Ok(d) ==>
              && k in d.machines && Admitted(d.machines[k])
              && EncodeMachine(base, Machine(k, d.machines[k])) == EncodeMachine(base, Machine(k, st.machines[k]))
  {
    hide EncodeMachine, DecodeMachine, EncodeDefaults, DecodeDefaults, DecodeMachines, Admitted, Mac.IsCanonical,
         Mac.CanonicalMac, SortBy, Encode;
    var es := Encode(base, st).machines;
    SavedEntries(base, st);
    DecodedEntries(base, files, es, map[]);
    var m := Machine(k, st.machines[k]);
    assert EncodeMachine(base, m) in es;
    DecodedEntryStands(base, files, m);
  }

  /** l is what the store has for a machine, key by key: its own profile, a param of its own keeping
      its own value, one found only in the defaults having the default's, and no other. A spelling of
      no member gets the defaults. */
  ghost predicate LookedUp(st: Store, mac: string, l: Profile) {
    && (forall canon | Mac.Denotes(mac, canon) && canon in st.machines :: LayeredOver(st.machines[canon], st.defaults, l))
    && ((forall canon | Mac.Denotes(mac, canon) :: canon !in st.machines) ==> l == st.defaults)
  }

  ghost predicate LayeredOver(own: Profile, defaults: Profile, l: Profile) {
    && l.boot == own.boot && l.name == own.name && l.cloudInit == own.cloudInit && l.preseed == own.preseed
    && l.kickstart == own.kickstart && l.rescue == own.rescue && l.ipxeScript == own.ipxeScript
    && (forall k :: k in l.params <==> k in own.params || k in defaults.params)
    && (forall k | k in own.params :: l.params[k] == own.params[k])
    && (forall k | k in defaults.params && k !in own.params :: l.params[k] == defaults.params[k])
  }

  lemma LookupMeans(st: Store, mac: string)
    ensures LookedUp(st, mac, Lookup(st, mac))
  {
    hide Mac.CanonicalMac, Mac.Denotes;
    Mac.CanonicalMacDenotes(mac);
  }

  /** So a save followed by a reload changes no lookup: after it every lookup still has what the saved
      store had, and own params never absorb the defaults'. */
  lemma LookupSurvivesReload(base: string, files: Files, st: Store, mac: string)
    requires IsBase(base) && StorableStore(base, st)
    ensures AllValid(st, files) ==>
      var d := Decode(base, files, Encode(base, st));
      d.Ok? && LookedUp(st, mac, Lookup(d.value, mac)) && d.value.machines == st.machines
  {
    hide LookedUp;
    SaveThenReload(base, files, st);
    LookupMeans(st, mac);
  }

  /** A profile sent over the API with an unclean rooted path below the fleet directory is
      accepted and saved, and the next reload changes it. */
  lemma UncleanPathChanges()
    ensures var base, files, p := "/f", Files({"/f//x"}, {}), Profile("custom", "n", "", "", "", "", "/f//x", map[]);
      && IsBase(base) && ValidProfile(p, files)
      && DecodeMachine(base, files, EncodeMachine(base, Machine("00:00:00:00:00:01", p)), {}) !=
         Ok(Machine("00:00:00:00:00:01", p))
    ensures IsBase("/f") && Paths.ResolvePath("/f", Paths.Relativize("/f", "/f//x")) == "/f/x"
  {
    var files, p := Files({"/f//x"}, {}), Profile("custom", "n", "", "", "", "", "/f//x", map[]);
    UncleanPath();
    EntryRoundTrip("/f", files, Machine("00:00:00:00:00:01", p), {});
  }

  lemma UncleanPath()
    ensures IsBase("/f") && !Paths.RoundTrips("/f", "/f//x")
    ensures Paths.ResolvePath("/f", Paths.Relativize("/f", "/f//x")) == "/f/x"
  {
    var base, x := "/f", "/f//x";
    assert base[1..] == "f" && x[1..] == "f//x";
    calc {
      Text.Split("f//x", '/');
      { assert "f//x" == "f" + ['/'] + "/x"; Text.SplitConcat("f", "/x", '/'); }
      Text.Split("f", '/') + Text.Split("/x", '/');
      { assert "/x" == "" + ['/'] + "x"; Text.SplitConcat("", "x", '/'); }
      Text.Split("f", '/') + (Text.Split("", '/') + Text.Split("x", '/'));
      { Text.SplitNoSep("f", '/'); Text.SplitNoSep("x", '/'); }
      ["f", "", "x"];
    }
    Text.SplitNoSep("f", '/');
    assert [] + ["f"] == ["f"] && ["f"] + ["x"] == ["f", "x"] && ["f"][1..] == [];
    assert ["f", "", "x"][1..] == ["", "x"] && ["", "x"][1..] == ["x"] && ["x"][1..] == [];
    assert Paths.Walk([], ["f"]) == Paths.Walk(["f"], []);
    assert Paths.Walk([], ["f", "", "x"]) == Paths.Walk(["f"], ["", "x"]) == Paths.Walk(["f"], ["x"]) == Paths.Walk(["f", "x"], []);
    assert Paths.Elements(base) == ["f"] && Paths.Elements(x) == ["f", "x"];
    assert ["f", "x"][1..] == ["x"] && ["f"] <= ["f", "x"];
    assert Paths.CleanAbs(base) == base && Paths.CleanAbs(x) == "/f/x" != x;
    Paths.TwoDots("x");
    Paths.ResolveOfRelativize(base, x);
  }
}
