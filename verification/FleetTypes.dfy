/** Machines, their boot profiles and the fleet they form. */
module FleetTypes {

  datatype Profile = Profile(
    boot: string,
    name: string,
    cloudInit: string,
    preseed: string,
    kickstart: string,
    rescue: string,
    ipxeScript: string,
    params: map<string, string>)

  datatype Machine = Machine(mac: string, profile: Profile)

  /** What one Fleet holds in memory: own machine entries and the fallback profile. */
  datatype Store = Store(machines: map<string, Profile>, defaults: Profile)

  predicate ValidBoot(boot: string) {
    boot in ["menu", "ubuntu-22.04", "ubuntu-24.04", "debian-12", "debian-13", "rocky-9", "alma-9", "custom"]
  }

  /** The side files a validation sees: those that exist, and those that define phone_home. */
  datatype Files = Files(present: set<string>, phoneHome: set<string>) {
    predicate HasIfSet(p: string) {
      p != "" ==> p in present
    }
  }

  /** validateProfile: note that it does not look at whether the boot target is a known one. */
  predicate ValidProfile(p: Profile, files: Files) {
    && (p.boot == "custom" ==> p.ipxeScript != "" && p.ipxeScript in files.present)
    && (p.boot == "ubuntu-22.04" || p.boot == "ubuntu-24.04" ==> files.HasIfSet(p.cloudInit))
    && (p.boot == "debian-12" || p.boot == "debian-13" ==> files.HasIfSet(p.preseed) && files.HasIfSet(p.cloudInit))
    && (p.boot == "rocky-9" || p.boot == "alma-9" ==> files.HasIfSet(p.kickstart) && files.HasIfSet(p.cloudInit))
    && files.HasIfSet(p.rescue)
    && !(p.cloudInit != "" && p.cloudInit in files.phoneHome)
  }

  /** The side files that boot target uses, when they are set. */
  function Used(p: Profile): set<string> {
    {p.rescue}
    + (if p.boot in {"ubuntu-22.04", "ubuntu-24.04", "debian-12", "debian-13", "rocky-9", "alma-9"} then {p.cloudInit} else {})
    + (if p.boot in {"debian-12", "debian-13"} then {p.preseed} else {})
    + (if p.boot in {"rocky-9", "alma-9"} then {p.kickstart} else {})
    + (if p.boot == "custom" then {p.ipxeScript} else {})
  }

  /** What acceptance means: every side file that is set and used exists, a custom target has its
      script, and cloud_init does not define phone_home. */
  ghost predicate InPlace(p: Profile, files: Files) {
    && (forall f | f in Used(p) && f != "" :: f in files.present)
    && (p.boot == "custom" ==> p.ipxeScript != "")
    && (p.cloudInit != "" ==> p.cloudInit !in files.phoneHome)
  }

  lemma ValidIsInPlace(p: Profile, files: Files)
    ensures ValidProfile(p, files) <==> InPlace(p, files)
  {
    var b := p.boot;
    if InPlace(p, files) {
      assert p.rescue in Used(p);
      assert b == "custom" ==> p.ipxeScript in Used(p);
      assert b in {"debian-12", "debian-13"} ==> p.preseed in Used(p);
      assert b in {"rocky-9", "alma-9"} ==> p.kickstart in Used(p);
      assert b in {"ubuntu-22.04", "ubuntu-24.04", "debian-12", "debian-13", "rocky-9", "alma-9"} ==> p.cloudInit in Used(p);
    }
  }

  /** ms lists the machines of m, each once, in some order: what ranging over a Go map yields. */
  ghost predicate IsListing(m: map<string, Profile>, ms: seq<Machine>) {
    && (forall i, j | 0 <= i < j < |ms| :: ms[i].mac != ms[j].mac)
    && (forall x :: x in ms <==> x.mac in m && m[x.mac] == x.profile)
  }

  ghost function SomeListing(m: map<string, Profile>): (ms: seq<Machine>)
    ensures IsListing(m, ms)
    decreases |m|
  {
    if m == map[] then []
    else
      var k :| k in m;
      var rest := SomeListing(m - {k});
      [Machine(k, m[k])] + rest
  }

  lemma ListingsAgree(m: map<string, Profile>, xs: seq<Machine>, ys: seq<Machine>)
    requires IsListing(m, xs) && IsListing(m, ys)
    ensures forall x :: x in xs <==> x in ys
  {
  }

  /** Ranging over the machine map: each machine once, in any order. */
  method CollectMachines(machines: map<string, Profile>) returns (ms: seq<Machine>)
    ensures IsListing(machines, ms)
  {
    ms := [];
    var rest := machines.Keys;
    while rest != {}
      invariant rest <= machines.Keys
      invariant forall i, j | 0 <= i < j < |ms| :: ms[i].mac != ms[j].mac
      invariant forall m :: m in ms <==> m.mac in machines && m.mac !in rest && machines[m.mac] == m.profile
      decreases |rest|
    {
      var k :| k in rest;
      ms := ms + [Machine(k, machines[k])];
      rest := rest - {k};
    }
  }
}
