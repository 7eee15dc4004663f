/** From the queued intent to the machine that boots: proxyDHCP, then iPXE, then the script. */
module EndToEnd {
  import opened FleetTypes
  import opened Ipxe
  import opened Dispatch
  import opened DispatchMeaning
  import BootTargets
  import DispatchFlow
  import Mac
  import FleetFile
  import Text
  import Life = Lifecycle
  import O = Offer
  import P = Pending

  /** handleScript's body when a fleet is loaded: the dispatch script for the fleet and the intents
      of this moment. */
  ghost function ServedScript(s: Life.Settings, ctx: Context, w: Life.World): seq<Ins> {
    Script(ctx, ByMac(w.st.machines), (m: string) => Life.RescueArmed(s, w, m))
  }

  lemma {:induction false} BlocksDependOn(ctx: Context, ms: seq<Machine>, r: string -> bool, r': string -> bool)
    requires forall m | m in ms :: r(m.mac) == r'(m.mac)
    ensures Blocks(ctx, ms, r) == Blocks(ctx, ms, r')
    decreases |ms|
  {
    hide Block;
    if ms != [] {
      assert ms[|ms| - 1] in ms;
      BlocksDependOn(ctx, ms[..|ms| - 1], r, r');
    }
  }

  /** Intents for machines outside the fleet do not change the script either. */
  lemma StaleIntentsChangeNoScript(s: Life.Settings, ctx: Context, w: Life.World, v: Life.World)
    requires Life.AgreeOnFleet(w, v) && forall k | k in w.st.machines :: Mac.IsCanonical(k)
    ensures ServedScript(s, ctx, w) == ServedScript(s, ctx, v)
  {
    hide Mac.CanonicalMac, Mac.IsCanonical, Before, Table, Blocks, Footer, ByMac;
    var ms := ByMac(w.st.machines);
    ByMacIsDetermined(w.st.machines, SomeListing(w.st.machines));
    var r, r' := (m: string) => Life.RescueArmed(s, w, m), (m: string) => Life.RescueArmed(s, v, m);
    forall m | m in ms ensures r(m.mac) == r'(m.mac) {
      Mac.CanonicalMacFixed(m.mac);
    }
    BlocksDependOn(ctx, ms, r, r');
  }

  /** No configured target loads SystemRescue's kernel. */
  lemma TargetIsNotRescue(ctx: Context, m: Machine)
    ensures var t, r := TargetPlan(ctx, m), RescuePlan(ctx, m.mac); t.KernelPlan? ==> t.kernel.url != r.kernel.url
  {
    hide DebianPlan, KickstartPlan, UbuntuPlan, RescuePlan;
    DebianIsNotRescue(ctx, m.mac, "bookworm");
    DebianIsNotRescue(ctx, m.mac, "trixie");
    KickstartIsNotRescue(ctx, m.mac, "download.rockylinux.org/pub/rocky/9/BaseOS/x86_64/os");
    KickstartIsNotRescue(ctx, m.mac, "repo.almalinux.org/almalinux/9/BaseOS/x86_64/os");
    if m.profile.boot == "ubuntu-22.04" || m.profile.boot == "ubuntu-24.04" { UbuntuIsNotRescue(ctx, m.mac, m.profile.boot); }
  }

  lemma RescueUrl(ctx: Context, mac: string)
    ensures var u := RescuePlan(ctx, mac).kernel.url;
      u == "http://" + Addr(ctx) + "/assets/" + ("systemrescue" + "/sysresccd/boot/x86_64/vmlinuz")
      && u[|u| - 1] == 'z' && u[4] == ':'
  {
    hide Addr, AutoinstallBase;
    var base := "http://" + Addr(ctx) + "/assets/";
    assert base + "systemrescue" + "/sysresccd/boot/x86_64/vmlinuz" == base + ("systemrescue" + "/sysresccd/boot/x86_64/vmlinuz");
    assert base[4] == ':' && "/sysresccd/boot/x86_64/vmlinuz"[29] == 'z';
  }

  lemma DebianIsNotRescue(ctx: Context, mac: string, suite: string)
    ensures DebianPlan(ctx, mac, suite).kernel.url != RescuePlan(ctx, mac).kernel.url
  {
    hide AutoinstallBase, RescuePlan;
    RescueUrl(ctx, mac);
    var u := DebianPlan(ctx, mac, suite).kernel.url;
    assert "/linux"[5] == 'x';
    assert u[|u| - 1] == 'x';
  }

  lemma KickstartIsNotRescue(ctx: Context, mac: string, tree: string)
    ensures KickstartPlan(ctx, mac, tree).kernel.url != RescuePlan(ctx, mac).kernel.url
  {
    hide AutoinstallBase, RescuePlan;
    RescueUrl(ctx, mac);
    assert "https://"[4] == 's' && KickstartPlan(ctx, mac, tree).kernel.url[4] == 's';
  }

  lemma UbuntuIsNotRescue(ctx: Context, mac: string, boot: string)
    requires |boot| > 0 && boot[0] == 'u'
    ensures UbuntuPlan(ctx, mac, boot).kernel.url != RescuePlan(ctx, mac).kernel.url
  {
    hide AutoinstallBase, RescuePlan, Addr;
    RescueUrl(ctx, mac);
    var head := "http://" + Addr(ctx) + "/assets/";
    var u := UbuntuPlan(ctx, mac, boot).kernel.url;
    assert u == head + boot + "/vmlinuz";
    assert u[|head|] == 'u' && RescuePlan(ctx, mac).kernel.url[|head|] == 's';
  }

  ghost predicate LiveIntent(s: Life.Settings, w: Life.World, mac: string) {
    mac in w.entries && (s.ttl <= 0 || w.now < w.entries[mac].requestedAt + s.ttl)
  }

  /** A fleet machine whose intent is live both when it asks for an offer and when the script is
      rendered: the firmware is given the boot binary of its own architecture; iPXE is given the
      script's URL and never a binary; and the script, left to its default, boots SystemRescue if the
      intent is a rescue and the machine's own target otherwise, which never loads SystemRescue's
      kernel. */
  lemma IntentDecidesBoot(s: Life.Settings, ctx: Context, v: Life.World, w: Life.World, mac: string,
                          firmware: O.Request, ipxe: O.Request, cl: Client, nic: nat)
    requires Mac.IsCanonical(mac) && firmware.mac == ipxe.mac == mac && 0 < s.port <= 65535
    requires LiveIntent(s, v, mac) && LiveIntent(s, w, mac)
    requires O.FromPxe(firmware) && "iPXE" !in firmware.userClasses && O.FromPxe(ipxe) && "iPXE" in ipxe.userClasses
    requires mac in w.st.machines && nic < 4 && nic < |cl.macs| && cl.macs[nic] == Mac.Hyphenated(mac)
    requires forall k, i | k in w.st.machines && 0 <= i < 4 && i < |cl.macs| && cl.macs[i] == Mac.Hyphenated(k) :: k == mac
    requires cl.buildarch != "arm64" && cl.buildarch != "arm32" && cl.dhcpWorks
    requires Unshadowed(ctx, ByMac(w.st.machines), (m: string) => Life.RescueArmed(s, w, m))
    ensures var d := O.Decide(firmware, Life.ConfigOf(s, v)); d.Sent? && O.Handed(firmware.archs, s.ip, s.port, d.reply)
    ensures var d, cfg := O.Decide(ipxe, Life.ConfigOf(s, w)), Life.ConfigOf(s, w);
      d.Sent? && O.HandedScript(s.ip, s.port, "/boot.ipxe", d.reply) && !O.ServesBinary(d.reply, cfg)
    ensures var m, p := Machine(mac, w.st.machines[mac]), ServedScript(s, ctx, w);
      if w.entries[mac].action == P.Rescue then BootTargets.BootsRescue(ctx, p, cl, [], m)
      else
        && BootTargets.BootsTarget(ctx, p, cl, [], m)
        && forall images | Reaches(p, cl, Start([]), Halted(Booted(images))) :: KernelImage(RescuePlan(ctx, mac).kernel) !in images
  {
    hide Script, ByMac, Mac.CanonicalMac, Mac.IsCanonical, O.IsPxe, Unshadowed, FleetFile.Lookup, Reaches, RescuePlan,
         TargetPlan, O.Url, O.HandedScript, O.Handed, Mac.Hyphenated, Life.StageOf, BootTargets.BootsTarget,
         BootTargets.BootsRescue, BootTargets.IsMachine, O.ServesBinary;
    OffersForIntent(s, v, mac, firmware);
    ScriptForIpxe(s, w, mac, ipxe);
    var rescue := (m: string) => Life.RescueArmed(s, w, m);
    var ms := ByMac(w.st.machines);
    var j := MachineOf(w.st.machines, cl, mac, nic);
    ArmedIs(s, w, mac);
    if w.entries[mac].action == P.Rescue {
      BootTargets.RescueBoots(ctx, ms, rescue, cl, [], j);
    } else {
      BootTargets.EachTargetBoots(ctx, ms, rescue, cl, [], j);
      BootTargets.RunsItsPlan(ctx, ms, rescue, cl, [], j);
      TargetIsNotRescue(ctx, Machine(mac, w.st.machines[mac]));
      forall images | Reaches(Script(ctx, ms, rescue), cl, Start([]), Halted(Booted(images)))
        ensures KernelImage(RescuePlan(ctx, mac).kernel) !in images
      {
        var out := PlanOutcome(PlanOf(ctx, ms[j], rescue(ms[j].mac)), cl);
        OneOutcome(Script(ctx, ms, rescue), cl, Start([]), Booted(images), out);
      }
    }
  }

  lemma ArmedIs(s: Life.Settings, w: Life.World, mac: string)
    requires Mac.IsCanonical(mac) && LiveIntent(s, w, mac)
    ensures Life.StatusOf(s, w, mac).Live? && (Life.RescueArmed(s, w, mac) <==> w.entries[mac].action == P.Rescue)
  {
    hide Mac.IsCanonical, Mac.CanonicalMac;
    Mac.CanonicalMacFixed(mac);
  }

  lemma OffersForIntent(s: Life.Settings, v: Life.World, mac: string, firmware: O.Request)
    requires Mac.IsCanonical(mac) && firmware.mac == mac && 0 < s.port <= 65535 && LiveIntent(s, v, mac)
    requires O.FromPxe(firmware) && "iPXE" !in firmware.userClasses
    ensures var d := O.Decide(firmware, Life.ConfigOf(s, v)); d.Sent? && O.Handed(firmware.archs, s.ip, s.port, d.reply)
  {
    hide Mac.IsCanonical, Mac.CanonicalMac, O.IsPxe, FleetFile.Lookup, Life.StageOf, Life.StatusOf, O.Handed;
    ArmedIs(s, v, mac);
    O.FirmwareAnswer(firmware, Life.ConfigOf(s, v));
    O.FirmwareIsHanded(firmware, Life.ConfigOf(s, v));
  }

  lemma ScriptForIpxe(s: Life.Settings, w: Life.World, mac: string, ipxe: O.Request)
    requires 0 < s.port <= 65535 && O.FromPxe(ipxe) && "iPXE" in ipxe.userClasses
    ensures var d, cfg := O.Decide(ipxe, Life.ConfigOf(s, w)), Life.ConfigOf(s, w);
      d.Sent? && O.HandedScript(s.ip, s.port, "/boot.ipxe", d.reply) && !O.ServesBinary(d.reply, cfg)
  {
    hide O.IsPxe, FleetFile.Lookup, Life.StageOf, Life.StatusOf, O.HandedScript, O.PxeClass;
    O.OthersAreTold(ipxe, Life.ConfigOf(s, w));
    O.ClassesMean(ipxe, Life.ConfigOf(s, w));
    assert O.Decide(ipxe, Life.ConfigOf(s, w)).reply.phase == O.IpxeScript;
  }

  lemma MachineOf(machines: map<string, Profile>, cl: Client, mac: string, nic: nat) returns (j: nat)
    requires mac in machines && nic < 4 && nic < |cl.macs| && cl.macs[nic] == Mac.Hyphenated(mac)
    requires forall k, i | k in machines && 0 <= i < 4 && i < |cl.macs| && cl.macs[i] == Mac.Hyphenated(k) :: k == mac
    requires cl.buildarch != "arm64" && cl.buildarch != "arm32" && cl.dhcpWorks
    ensures j < |ByMac(machines)| && ByMac(machines)[j] == Machine(mac, machines[mac])
    ensures BootTargets.IsMachine(ByMac(machines), cl, j)
  {
    hide ByMac, Mac.Hyphenated;
    DispatchFlow.MatchIsLookup(machines, cl, mac, nic);
    j := FirstMatch(ByMac(machines), cl).index;
    var ms := ByMac(machines);
    assert HasNic(cl, nic, Mac.Hyphenated(ms[j].mac));
    forall i, q | 0 <= i < j && 0 <= q < 4 ensures !HasNic(cl, q, Mac.Hyphenated(ms[i].mac)) {
      assert !Matches(cl, ms[i]);
    }
  }
}
