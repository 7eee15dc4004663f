/** What each boot target makes a machine boot, in the words of the script's URLs and arguments. */
module BootTargets {
  import opened FleetTypes
  import opened Ipxe
  import opened Dispatch
  import opened DispatchMeaning
  import opened DispatchCorrect
  import Mac
  import Text

  /** The run of the script for this client ends by booting this kernel and initrd, or by a reboot when
      one of them cannot be fetched or does not boot. */
  ghost predicate Boots(p: seq<Ins>, cl: Client, choices: seq<Choice>, url: string, args: seq<string>, initrd: string) {
    Reaches(p, cl, Start(choices),
            Halted(if url in cl.fetchable && initrd in cl.fetchable && cl.bootWorks
                   then Booted([KernelImage(Kernel(url, args)), InitrdImage(initrd)]) else Rebooted))
  }

  ghost predicate Chains(p: seq<Ins>, cl: Client, choices: seq<Choice>, url: string) {
    Reaches(p, cl, Start(choices), Halted(if url in cl.fetchable then Chained(url) else Rebooted))
  }

  /** The run ends as the machine's target says: kernel, arguments and initrd of that distribution and
      release, with the machine's own URLs in the arguments; the chained script for custom and menu;
      and the netboot.xyz menu for a target the compiler does not know. */
  ghost predicate BootsTarget(ctx: Context, p: seq<Ins>, cl: Client, choices: seq<Choice>, m: Machine) {
    var host := ctx.ip + ":" + Text.Decimal(ctx.port);
    var own := "http://" + host + "/autoinstall/" + Mac.Hyphenated(m.mac) + "/";
    match m.profile.boot
    case "debian-12" =>
      var d := "http://deb.debian.org/debian/dists/" + "bookworm" +
               "/main/installer-amd64/current/images/netboot/debian-installer/amd64";
      Boots(p, cl, choices, d + "/linux",
            ["auto=true", "priority=critical", "preseed/url=" + own + "preseed.cfg", "mirror/suite=" + "bookworm", "---"],
            d + "/initrd.gz")
    case "debian-13" =>
      var d := "http://deb.debian.org/debian/dists/" + "trixie" +
               "/main/installer-amd64/current/images/netboot/debian-installer/amd64";
      Boots(p, cl, choices, d + "/linux",
            ["auto=true", "priority=critical", "preseed/url=" + own + "preseed.cfg", "mirror/suite=" + "trixie", "---"],
            d + "/initrd.gz")
    case "rocky-9" =>
      var d := "https://" + "download.rockylinux.org/pub/rocky/9/BaseOS/x86_64/os";
      Boots(p, cl, choices, d + "/images/pxeboot/vmlinuz",
            ["initrd=initrd.img", "inst.repo=" + d, "inst.ks=" + own + "kickstart.cfg", "---"],
            d + "/images/pxeboot/initrd.img")
    case "alma-9" =>
      var d := "https://" + "repo.almalinux.org/almalinux/9/BaseOS/x86_64/os";
      Boots(p, cl, choices, d + "/images/pxeboot/vmlinuz",
            ["initrd=initrd.img", "inst.repo=" + d, "inst.ks=" + own + "kickstart.cfg", "---"],
            d + "/images/pxeboot/initrd.img")
    case "ubuntu-22.04" =>
      var d := "http://" + host + "/assets/" + "ubuntu-22.04";
      Boots(p, cl, choices, d + "/vmlinuz",
            ["initrd=initrd", "ipv6.disable=1", "boot=casper", "url=" + d + "/filesystem.squashfs", "autoinstall",
             "ds=nocloud-net\\;s=" + own, "---"],
            d + "/initrd")
    case "ubuntu-24.04" =>
      var d := "http://" + host + "/assets/" + "ubuntu-24.04";
      Boots(p, cl, choices, d + "/vmlinuz",
            ["initrd=initrd", "ipv6.disable=1", "boot=casper", "url=" + d + "/filesystem.squashfs", "autoinstall",
             "ds=nocloud-net\\;s=" + own, "---"],
            d + "/initrd")
    case "custom" => Chains(p, cl, choices, own + "autoexec.ipxe")
    case _ => Chains(p, cl, choices, "https://boot.netboot.xyz/menu.ipxe")
  }

  /** The run ends in SystemRescue from the server's own assets, with the machine's own configuration. */
  ghost predicate BootsRescue(ctx: Context, p: seq<Ins>, cl: Client, choices: seq<Choice>, m: Machine) {
    var host := ctx.ip + ":" + Text.Decimal(ctx.port);
    var own := "http://" + host + "/autoinstall/" + Mac.Hyphenated(m.mac) + "/";
    var d := "http://" + host + "/assets/" + "systemrescue";
    Boots(p, cl, choices, d + "/sysresccd/boot/x86_64/vmlinuz",
          ["archisobasedir=sysresccd", "ip=dhcp", "archiso_http_srv=" + d + "/", "sysrescuecfg=" + own + "sysrescue.yaml", "---"],
          d + "/sysresccd/boot/x86_64/sysresccd.img")
  }

  /** The client is machine j and nobody earlier, and gets past the arch gate and DHCP. */
  ghost predicate IsMachine(ms: seq<Machine>, cl: Client, j: nat) {
    && j < |ms| && cl.buildarch != "arm64" && cl.buildarch != "arm32" && cl.dhcpWorks
    && (exists nic | 0 <= nic < 4 :: HasNic(cl, nic, Mac.Hyphenated(ms[j].mac)))
    && (forall i, nic | 0 <= i < j && 0 <= nic < 4 :: !HasNic(cl, nic, Mac.Hyphenated(ms[i].mac)))
  }

  lemma {:induction false} FirstIs(ms: seq<Machine>, cl: Client, j: nat)
    requires IsMachine(ms, cl, j)
    ensures FirstMatch(ms, cl) == At(j)
  {
    assert Matches(cl, ms[j]);
    forall i | 0 <= i < j ensures !Matches(cl, ms[i]) {}
  }

  lemma RunsItsPlan(ctx: Context, ms: seq<Machine>, rescue: string -> bool, cl: Client, choices: seq<Choice>, j: nat)
    requires Unshadowed(ctx, ms, rescue) && IsMachine(ms, cl, j) && (choices == [] || choices[0] == Timeout || choices[0] == Press(0))
    ensures Reaches(Script(ctx, ms, rescue), cl, Start(choices), Halted(PlanOutcome(PlanOf(ctx, ms[j], rescue(ms[j].mac)), cl)))
  {
    hide Script, Unshadowed, IsMachine, PlanOf, PlanOutcome, FirstMatch, Reaches;
    assert j < |ms| by { Present(ms, cl, j); }
    Present(ms, cl, j);
    FirstIs(ms, cl, j);
    ScriptMeansLookup(ctx, ms, rescue, cl, choices);
  }

  lemma Present(ms: seq<Machine>, cl: Client, j: nat)
    requires IsMachine(ms, cl, j)
    ensures j < |ms| && cl.buildarch != "arm64" && cl.buildarch != "arm32" && cl.dhcpWorks
  {
  }

  /** By the boot target alone, when nobody is at the menu or the first entry is chosen. */
  lemma {:induction false} EachTargetBoots(ctx: Context, ms: seq<Machine>, rescue: string -> bool, cl: Client, choices: seq<Choice>, j: nat)
    requires Unshadowed(ctx, ms, rescue) && IsMachine(ms, cl, j) && (choices == [] || choices[0] == Timeout || choices[0] == Press(0))
    requires !rescue(ms[j].mac)
    ensures BootsTarget(ctx, Script(ctx, ms, rescue), cl, choices, ms[j])
  {
    hide Script, Reaches, Unshadowed, BootsTarget, PlanOutcome, TargetPlan, IsMachine;
    Present(ms, cl, j);
    RunsItsPlan(ctx, ms, rescue, cl, choices, j);
    PlanIsTarget(ctx, Script(ctx, ms, rescue), cl, choices, ms[j]);
  }

  lemma PlanIsTarget(ctx: Context, p: seq<Ins>, cl: Client, choices: seq<Choice>, m: Machine)
    requires Reaches(p, cl, Start(choices), Halted(PlanOutcome(TargetPlan(ctx, m), cl)))
    ensures BootsTarget(ctx, p, cl, choices, m)
  {
    hide Reaches, Boots, Chains, PlanOutcome, TargetPlan, Text.Decimal, Mac.Hyphenated;
    match m.profile.boot
    case "debian-12" => DebianBoots(ctx, p, cl, choices, m, "bookworm");
    case "debian-13" => DebianBoots(ctx, p, cl, choices, m, "trixie");
    case "rocky-9" => KickstartBoots(ctx, p, cl, choices, m, "download.rockylinux.org/pub/rocky/9/BaseOS/x86_64/os");
    case "alma-9" => KickstartBoots(ctx, p, cl, choices, m, "repo.almalinux.org/almalinux/9/BaseOS/x86_64/os");
    case "ubuntu-22.04" => UbuntuBoots(ctx, p, cl, choices, m);
    case "ubuntu-24.04" => UbuntuBoots(ctx, p, cl, choices, m);
    case _ => OthersChain(ctx, p, cl, choices, m);
  }

  function OwnUrl(ctx: Context, m: Machine): string {
    "http://" + (ctx.ip + ":" + Text.Decimal(ctx.port)) + "/autoinstall/" + Mac.Hyphenated(m.mac) + "/"
  }

  lemma DebianBoots(ctx: Context, p: seq<Ins>, cl: Client, choices: seq<Choice>, m: Machine, suite: string)
    requires m.profile.boot == (if suite == "bookworm" then "debian-12" else "debian-13") && suite in {"bookworm", "trixie"}
    requires Reaches(p, cl, Start(choices), Halted(PlanOutcome(TargetPlan(ctx, m), cl)))
    ensures var d := "http://deb.debian.org/debian/dists/" + suite +
                     "/main/installer-amd64/current/images/netboot/debian-installer/amd64";
      Boots(p, cl, choices, d + "/linux",
            ["auto=true", "priority=critical", "preseed/url=" + OwnUrl(ctx, m) + "preseed.cfg", "mirror/suite=" + suite, "---"],
            d + "/initrd.gz")
  {
    hide Reaches, Text.Decimal, Mac.Hyphenated;
  }

  lemma KickstartBoots(ctx: Context, p: seq<Ins>, cl: Client, choices: seq<Choice>, m: Machine, tree: string)
    requires (m.profile.boot == "rocky-9" && tree == "download.rockylinux.org/pub/rocky/9/BaseOS/x86_64/os") ||
             (m.profile.boot == "alma-9" && tree == "repo.almalinux.org/almalinux/9/BaseOS/x86_64/os")
    requires Reaches(p, cl, Start(choices), Halted(PlanOutcome(TargetPlan(ctx, m), cl)))
    ensures var d := "https://" + tree;
      Boots(p, cl, choices, d + "/images/pxeboot/vmlinuz",
            ["initrd=initrd.img", "inst.repo=" + d, "inst.ks=" + OwnUrl(ctx, m) + "kickstart.cfg", "---"],
            d + "/images/pxeboot/initrd.img")
  {
    hide Reaches, Text.Decimal, Mac.Hyphenated;
  }

  lemma UbuntuBoots(ctx: Context, p: seq<Ins>, cl: Client, choices: seq<Choice>, m: Machine)
    requires m.profile.boot == "ubuntu-22.04" || m.profile.boot == "ubuntu-24.04"
    requires Reaches(p, cl, Start(choices), Halted(PlanOutcome(TargetPlan(ctx, m), cl)))
    ensures var d := "http://" + (ctx.ip + ":" + Text.Decimal(ctx.port)) + "/assets/" + m.profile.boot;
      Boots(p, cl, choices, d + "/vmlinuz",
            ["initrd=initrd", "ipv6.disable=1", "boot=casper", "url=" + d + "/filesystem.squashfs", "autoinstall",
             "ds=nocloud-net\\;s=" + OwnUrl(ctx, m), "---"],
            d + "/initrd")
  {
    hide Reaches, Text.Decimal, Mac.Hyphenated;
  }

  lemma OthersChain(ctx: Context, p: seq<Ins>, cl: Client, choices: seq<Choice>, m: Machine)
    requires m.profile.boot !in {"debian-12", "debian-13", "rocky-9", "alma-9", "ubuntu-22.04", "ubuntu-24.04"}
    requires Reaches(p, cl, Start(choices), Halted(PlanOutcome(TargetPlan(ctx, m), cl)))
    ensures Chains(p, cl, choices,
                   if m.profile.boot == "custom" then OwnUrl(ctx, m) + "autoexec.ipxe" else "https://boot.netboot.xyz/menu.ipxe")
  {
    hide Reaches, Text.Decimal, Mac.Hyphenated;
  }

  /** While a rescue is armed for it, whatever its target is. */
  lemma {:induction false} RescueBoots(ctx: Context, ms: seq<Machine>, rescue: string -> bool, cl: Client, choices: seq<Choice>, j: nat)
    requires Unshadowed(ctx, ms, rescue) && IsMachine(ms, cl, j) && (choices == [] || choices[0] == Timeout || choices[0] == Press(0))
    requires rescue(ms[j].mac)
    ensures BootsRescue(ctx, Script(ctx, ms, rescue), cl, choices, ms[j])
  {
    hide Script, Reaches, Unshadowed, Text.Decimal, Mac.Hyphenated;
    Present(ms, cl, j);
    RunsItsPlan(ctx, ms, rescue, cl, choices, j);
  }

  /** The other answers at a menu: its second entry is the netboot.xyz menu; its third is the shell,
      which comes back to the menu; and an interrupt stops the script, but after a visit to the shell
      it goes there again. */
  lemma {:induction false} OtherAnswers(ctx: Context, ms: seq<Machine>, rescue: string -> bool, cl: Client, rest: seq<Choice>, j: nat)
    requires Unshadowed(ctx, ms, rescue) && IsMachine(ms, cl, j)
    ensures var p := Script(ctx, ms, rescue);
      && Chains(p, cl, [Press(1)] + rest, "https://boot.netboot.xyz/menu.ipxe")
      && Reaches(p, cl, Start([Interrupt] + rest), Halted(Stopped))
      && (rest != [] && rest[0] != Interrupt ==>
            forall out :: Reaches(p, cl, Start(rest), Halted(out)) ==> Reaches(p, cl, Start([Press(2)] + rest), Halted(out)))
      && (forall out :: Reaches(p, cl, Start([Press(2)] + rest), Halted(out)) ==>
                        Reaches(p, cl, Start([Press(2), Interrupt] + rest), Halted(out)))
  {
    hide Script, Reaches, Unshadowed, PlanOf, PlanOutcome, FirstMatch, IsMachine;
    Present(ms, cl, j);
    FirstIs(ms, cl, j);
    var p, plan := Script(ctx, ms, rescue), PlanOf(ctx, ms[j], rescue(ms[j].mac));
    ScriptMeansLookup(ctx, ms, rescue, cl, [Press(1)] + rest);
    ScriptMeansLookup(ctx, ms, rescue, cl, [Interrupt] + rest);
    var again, twice := [Press(2)] + rest, [Press(2), Interrupt] + rest;
    ScriptMeansLookup(ctx, ms, rescue, cl, rest);
    ScriptMeansLookup(ctx, ms, rescue, cl, again);
    ScriptMeansLookup(ctx, ms, rescue, cl, twice);
    AfterShell(plan, cl, rest);
    forall out | Reaches(p, cl, Start(rest), Halted(out)) ensures out == ArmOutcome(plan, cl, rest, Nothing) {
      OneOutcome(p, cl, Start(rest), out, ArmOutcome(plan, cl, rest, Nothing));
    }
    forall out | Reaches(p, cl, Start(again), Halted(out)) ensures out == ArmOutcome(plan, cl, again, Nothing) {
      OneOutcome(p, cl, Start(again), out, ArmOutcome(plan, cl, again, Nothing));
    }
  }

  lemma AfterShell(plan: Plan, cl: Client, rest: seq<Choice>)
    ensures rest != [] && rest[0] != Interrupt ==>
              ArmOutcome(plan, cl, [Press(2)] + rest, Nothing) == ArmOutcome(plan, cl, rest, Nothing)
    ensures ArmOutcome(plan, cl, [Press(2), Interrupt] + rest, Nothing) == ArmOutcome(plan, cl, [Press(2)] + rest, Nothing)
  {
    hide PlanOutcome, NetbootOutcome;
    assert ([Press(2)] + rest)[1..] == rest;
    assert ([Press(2), Interrupt] + rest)[1..] == [Interrupt] + rest;
    assert ([Interrupt] + rest)[1..] == rest;
  }

  /** Clients of no machine, those refused, and those without DHCP. */
  lemma {:induction false} OtherClients(ctx: Context, ms: seq<Machine>, rescue: string -> bool, cl: Client, choices: seq<Choice>)
    requires Unshadowed(ctx, ms, rescue)
    ensures var p := Script(ctx, ms, rescue);
      && (cl.buildarch == "arm64" || cl.buildarch == "arm32" || !cl.dhcpWorks ==> Reaches(p, cl, Start(choices), Halted(Rebooted)))
      && (cl.buildarch != "arm64" && cl.buildarch != "arm32" && cl.dhcpWorks
          && (forall i, nic | 0 <= i < |ms| && 0 <= nic < 4 :: !HasNic(cl, nic, Mac.Hyphenated(ms[i].mac))) ==>
            Chains(p, cl, choices, "https://boot.netboot.xyz/menu.ipxe"))
  {
    hide Script, Reaches, Unshadowed, PlanOf, FirstMatch;
    ScriptMeansLookup(ctx, ms, rescue, cl, choices);
  }
}
