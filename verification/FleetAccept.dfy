/** Which fleet files and which requests are accepted, said field by field. */
module FleetAccept {
  import opened FleetTypes
  import opened FleetFile
  import opened FleetOps
  import Mac
  import Paths

  const BOOTS: set<string> :=
    {"menu", "ubuntu-22.04", "ubuntu-24.04", "debian-12", "debian-13", "rocky-9", "alma-9", "custom"}

  /** The profile an entry stands for: each path made absolute against the fleet directory, and the
      menu where no target is given. */
  function Profiled(base: string, e: MachineEntry): Profile
    requires IsBase(base)
  {
    Profile(
      boot := if e.boot == "" then "menu" else e.boot,
      name := e.name,
      cloudInit := Paths.ResolvePath(base, e.cloudInit),
      preseed := Paths.ResolvePath(base, e.preseed),
      kickstart := Paths.ResolvePath(base, e.kickstart),
      rescue := Paths.ResolvePath(base, e.rescue),
      ipxeScript := Paths.ResolvePath(base, e.ipxeScript),
      params := e.params)
  }

  function AsEntry(d: DefaultsEntry): MachineEntry {
    MachineEntry("", "", d.boot, d.cloudInit, d.preseed, d.kickstart, d.rescue, d.ipxeScript, d.params)
  }

  /** The path rules: empty stays empty, a rooted path stays as it is, any other is joined to the
      fleet directory and cleaned. */
  lemma ResolvedPath(base: string, p: string)
    requires IsBase(base)
    ensures var r := Paths.ResolvePath(base, p);
      r == if p == "" then "" else if p[0] == '/' then p else Paths.CleanAbs(base + "/" + p)
  {
  }

  ghost predicate ProfileFits(base: string, files: Files, e: MachineEntry)
    requires IsBase(base)
  {
    (e.boot == "" || e.boot in BOOTS) && InPlace(Profiled(base, e), files)
  }

  ghost predicate SameMachine(e: MachineEntry, f: MachineEntry) {
    exists canon :: Mac.Denotes(e.mac, canon) && Mac.Denotes(f.mac, canon)
  }

  lemma EntryAccepted(base: string, files: Files, e: MachineEntry, seen: set<string>)
    requires IsBase(base)
    ensures var d := DecodeMachine(base, files, e, seen);
      && (d.Ok? <==> ProfileFits(base, files, e) && Mac.CanonicalMac(e.mac).Good? && Mac.CanonicalMac(e.mac).mac !in seen)
      && (d.Ok? ==> d.value == Machine(Mac.CanonicalMac(e.mac).mac, Profiled(base, e)))
  {
    hide Mac.CanonicalMac, Paths.ResolvePath, ValidProfile, InPlace;
    assert MergeParams(map[], e.params) == e.params;
    ValidIsInPlace(Profiled(base, e), files);
  }

  lemma DefaultsAccepted(base: string, files: Files, d: DefaultsEntry)
    requires IsBase(base)
    ensures var r := DecodeDefaults(base, files, d);
      && (r.Ok? <==> ProfileFits(base, files, AsEntry(d)))
      && (r.Ok? ==> r.value == Profiled(base, AsEntry(d)))
  {
    hide Paths.ResolvePath, ValidProfile, InPlace;
    assert MergeParams(map[], d.params) == d.params;
    ValidIsInPlace(Profiled(base, AsEntry(d)), files);
  }

  ghost predicate AllFit(base: string, files: Files, es: seq<MachineEntry>)
    requires IsBase(base)
  {
    && (forall e | e in es :: ProfileFits(base, files, e) && Mac.CanonicalMac(e.mac).Good?)
    && (forall i, j | 0 <= i < j < |es| :: Mac.CanonicalMac(es[i].mac) != Mac.CanonicalMac(es[j].mac))
  }

  lemma {:induction false} EntriesAccepted(base: string, files: Files, es: seq<MachineEntry>, acc: map<string, Profile>)
    requires IsBase(base)
    ensures DecodeMachines(base, files, es, acc).Ok? <==>
            AllFit(base, files, es) && forall e | e in es :: Mac.CanonicalMac(e.mac).Good? ==> Mac.CanonicalMac(e.mac).mac !in acc
    decreases |es|
  {
    hide Mac.CanonicalMac, DecodeMachine, ProfileFits;
    if es != [] {
      var d := DecodeMachine(base, files, es[0], acc.Keys);
      EntryAccepted(base, files, es[0], acc.Keys);
      assert es == [es[0]] + es[1..];
      if d.Ok? {
        EntriesAccepted(base, files, es[1..], acc[d.value.mac := d.value.profile]);
        SplitFit(base, files, es);
      }
    }
  }

  lemma SplitFit(base: string, files: Files, es: seq<MachineEntry>)
    requires IsBase(base) && es != []
    ensures AllFit(base, files, es) <==>
            && ProfileFits(base, files, es[0]) && Mac.CanonicalMac(es[0].mac).Good?
            && AllFit(base, files, es[1..])
            && forall e | e in es[1..] :: Mac.CanonicalMac(es[0].mac) != Mac.CanonicalMac(e.mac)
  {
    hide Mac.CanonicalMac, ProfileFits;
    assert es == [es[0]] + es[1..];
    if AllFit(base, files, es) {
      forall e | e in es[1..] ensures Mac.CanonicalMac(es[0].mac) != Mac.CanonicalMac(e.mac) {
        var j :| 0 <= j < |es[1..]| && es[1..][j] == e;
        assert es[j + 1] == e;
      }
    }
  }

  /** Exactly which files load, and what they load as: the defaults and every entry have a known target
      or none and their side files in place, every entry spells a MAC, and no two the same; then each
      machine has its entry's profile, and there is no other. */
  lemma FileAccepted(base: string, files: Files, cfg: ConfigFile)
    requires IsBase(base)
    ensures Decode(base, files, cfg).Ok? <==>
            && ProfileFits(base, files, AsEntry(cfg.defaults))
            && (forall e | e in cfg.machines :: ProfileFits(base, files, e) && exists canon :: Mac.Denotes(e.mac, canon))
            && (forall i, j | 0 <= i < j < |cfg.machines| :: !SameMachine(cfg.machines[i], cfg.machines[j]))
    ensures Decode(base, files, cfg).Ok? ==>
              var st := Decode(base, files, cfg).value;
              && st.defaults == Profiled(base, AsEntry(cfg.defaults))
              && (forall e, canon | e in cfg.machines && Mac.Denotes(e.mac, canon) ::
                    canon in st.machines && st.machines[canon] == Profiled(base, e))
              && (forall canon | canon in st.machines :: exists e :: e in cfg.machines && Mac.Denotes(e.mac, canon))
  {
    hide Mac.CanonicalMac, Mac.Denotes, ProfileFits, Profiled, DecodeMachines, DecodeDefaults;
    DefaultsAccepted(base, files, cfg.defaults);
    EntriesAccepted(base, files, cfg.machines, map[]);
    FitMeans(base, files, cfg.machines);
    if Decode(base, files, cfg).Ok? { LoadedMachines(base, files, cfg); }
  }

  lemma FitMeans(base: string, files: Files, es: seq<MachineEntry>)
    requires IsBase(base)
    ensures AllFit(base, files, es) <==>
            && (forall e | e in es :: ProfileFits(base, files, e) && exists canon :: Mac.Denotes(e.mac, canon))
            && (forall i, j | 0 <= i < j < |es| :: !SameMachine(es[i], es[j]))
  {
    hide Mac.CanonicalMac, Mac.Denotes, ProfileFits;
    forall e: MachineEntry ensures Mac.CanonicalMac(e.mac).Good? <==> exists canon :: Mac.Denotes(e.mac, canon) {
      Mac.CanonicalMacDenotes(e.mac);
    }
    forall i, j | 0 <= i < j < |es| && Mac.CanonicalMac(es[i].mac).Good? && Mac.CanonicalMac(es[j].mac).Good?
      ensures SameMachine(es[i], es[j]) <==> Mac.CanonicalMac(es[i].mac) == Mac.CanonicalMac(es[j].mac)
    {
      Mac.CanonicalMacDenotes(es[i].mac);
      Mac.CanonicalMacDenotes(es[j].mac);
    }
  }

  lemma LoadedMachines(base: string, files: Files, cfg: ConfigFile)
    requires IsBase(base) && Decode(base, files, cfg).Ok?
    ensures var st := Decode(base, files, cfg).value;
      && (forall e, canon | e in cfg.machines && Mac.Denotes(e.mac, canon) ::
            canon in st.machines && st.machines[canon] == Profiled(base, e))
      && (forall canon | canon in st.machines :: exists e :: e in cfg.machines && Mac.Denotes(e.mac, canon))
  {
    hide Mac.CanonicalMac, Mac.Denotes, Profiled, Decode, IsBase;
    forall e, canon | e in cfg.machines && Mac.Denotes(e.mac, canon)
      ensures var st := Decode(base, files, cfg).value; canon in st.machines && st.machines[canon] == Profiled(base, e)
    {
      LoadedEntry(base, files, cfg, e, canon);
    }
    forall canon | canon in Decode(base, files, cfg).value.machines
      ensures exists e :: e in cfg.machines && Mac.Denotes(e.mac, canon)
    {
      EntryOfMachine(base, files, cfg, canon);
    }
  }

  lemma LoadedEntry(base: string, files: Files, cfg: ConfigFile, e: MachineEntry, canon: string)
    requires IsBase(base) && Decode(base, files, cfg).Ok? && e in cfg.machines && Mac.Denotes(e.mac, canon)
    ensures var st := Decode(base, files, cfg).value; canon in st.machines && st.machines[canon] == Profiled(base, e)
  {
    hide Mac.CanonicalMac, Mac.Denotes, Profiled, DecodeMachines, DecodeDefaults, DecodeMachine, ProfileFits;
    DecodedEntries(base, files, cfg.machines, map[]);
    Mac.CanonicalMacDenotes(e.mac);
    EntryAccepted(base, files, e, {});
  }

  lemma EntryOfMachine(base: string, files: Files, cfg: ConfigFile, canon: string)
    requires IsBase(base) && Decode(base, files, cfg).Ok? && canon in Decode(base, files, cfg).value.machines
    ensures exists e :: e in cfg.machines && Mac.Denotes(e.mac, canon)
  {
    hide Mac.CanonicalMac, Mac.Denotes, DecodeMachines, DecodeDefaults, DecodeMachine;
    DecodedHasEntry(base, files, cfg.machines, map[], canon);
    var e :| e in cfg.machines && Mac.CanonicalMac(e.mac) == Mac.Good(canon);
    Mac.CanonicalMacDenotes(e.mac);
  }

  // ----- requests -----

  /** Which calls get as far as the save lock, and what the others are told: first about the MAC, then
      about the profile, then, for an update, about a missing If-Match. */
  lemma CallsAccepted(req: Request, files: Files)
    requires !req.ReloadRequest?
    ensures var mac := if req.DeleteRequest? then req.mac else req.m.mac;
      var p := Prepare(req, files);
      && (p == Rejected(InvalidMac) <==> forall canon :: !Mac.Denotes(mac, canon))
      && (p == Rejected(InvalidProfile) <==>
          !req.DeleteRequest? && (exists canon :: Mac.Denotes(mac, canon)) && !InPlace(req.m.profile, files))
      && (p == Rejected(PreconditionRequired) <==>
          req.UpdateRequest? && (exists canon :: Mac.Denotes(mac, canon)) && InPlace(req.m.profile, files) && req.ifMatch == "")
      && (p.Rejected? ==> p.result in {InvalidMac, InvalidProfile, PreconditionRequired})
      && (p.Ready? ==>
            && Mac.Denotes(mac, p.op.mac)
            && match req
               case CreateRequest(m) => p.op == Create(p.op.mac, m.profile)
               case UpdateRequest(m, ifMatch) => p.op == Update(p.op.mac, m.profile, ifMatch)
               case DeleteRequest(_, ifMatch) => p.op == Delete(p.op.mac, ifMatch))
  {
    hide Mac.CanonicalMac, Mac.Denotes, ValidProfile, InPlace;
    Mac.CanonicalMacDenotes(if req.DeleteRequest? then req.mac else req.m.mac);
    if !req.DeleteRequest? { ValidIsInPlace(req.m.profile, files); }
  }
}
