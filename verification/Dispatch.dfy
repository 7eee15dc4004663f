/** The compiler from the fleet to one iPXE script, writing to a shared buffer as it goes. */
module Dispatch {
  import opened FleetTypes
  import opened Ipxe
  import opened Sorting
  import Mac
  import Text

  datatype Context = Context(ip: string, port: nat, netmask: string)

  function Addr(ctx: Context): string { ctx.ip + ":" + Text.Decimal(ctx.port) }

  function AutoinstallBase(ctx: Context, mac: string): string {
    "http://" + Addr(ctx) + "/autoinstall/" + Mac.Hyphenated(mac) + "/"
  }

  function AssetsBase(ctx: Context, target: string): string {
    "http://" + Addr(ctx) + "/assets/" + target
  }

  const NETBOOT := "https://boot.netboot.xyz/menu.ipxe"

  /** What the boot section of a machine's block tries to run. */
  datatype Plan =
    | KernelPlan(kernel: Kernel, initrd: string)
    | ChainPlan(url: string)
    | UnknownPlan

  function RescuePlan(ctx: Context, mac: string): (plan: Plan)
    ensures plan.KernelPlan?
  {
    var base := AssetsBase(ctx, "systemrescue");
    KernelPlan(Kernel(base + "/sysresccd/boot/x86_64/vmlinuz",
                      ["archisobasedir=sysresccd", "ip=dhcp", "archiso_http_srv=" + base + "/",
                       "sysrescuecfg=" + AutoinstallBase(ctx, mac) + "sysrescue.yaml", "---"]),
               base + "/sysresccd/boot/x86_64/sysresccd.img")
  }

  function DebianPlan(ctx: Context, mac: string, suite: string): (plan: Plan)
    ensures plan.KernelPlan?
  {
    var mirror := "http://deb.debian.org/debian/dists/" + suite +
                  "/main/installer-amd64/current/images/netboot/debian-installer/amd64";
    KernelPlan(Kernel(mirror + "/linux",
                      ["auto=true", "priority=critical", "preseed/url=" + AutoinstallBase(ctx, mac) + "preseed.cfg",
                       "mirror/suite=" + suite, "---"]),
               mirror + "/initrd.gz")
  }

  function KickstartPlan(ctx: Context, mac: string, tree: string): (plan: Plan)
    ensures plan.KernelPlan?
  {
    var repo := "https://" + tree;
    KernelPlan(Kernel(repo + "/images/pxeboot/vmlinuz",
                      ["initrd=initrd.img", "inst.repo=" + repo,
                       "inst.ks=" + AutoinstallBase(ctx, mac) + "kickstart.cfg", "---"]),
               repo + "/images/pxeboot/initrd.img")
  }

  function UbuntuPlan(ctx: Context, mac: string, boot: string): (plan: Plan)
    ensures plan.KernelPlan?
  {
    var assets := AssetsBase(ctx, boot);
    KernelPlan(Kernel(assets + "/vmlinuz",
                      ["initrd=initrd", "ipv6.disable=1", "boot=casper", "url=" + assets + "/filesystem.squashfs",
                       "autoinstall", "ds=nocloud-net\\;s=" + AutoinstallBase(ctx, mac), "---"]),
               assets + "/initrd")
  }

  /** The configured target of a machine. */
  function TargetPlan(ctx: Context, m: Machine): Plan {
    if m.profile.boot == "debian-12" then DebianPlan(ctx, m.mac, "bookworm")
    else if m.profile.boot == "debian-13" then DebianPlan(ctx, m.mac, "trixie")
    else if m.profile.boot == "rocky-9" then
      KickstartPlan(ctx, m.mac, "download.rockylinux.org/pub/rocky/9/BaseOS/x86_64/os")
    else if m.profile.boot == "alma-9" then
      KickstartPlan(ctx, m.mac, "repo.almalinux.org/almalinux/9/BaseOS/x86_64/os")
    else if m.profile.boot == "ubuntu-22.04" || m.profile.boot == "ubuntu-24.04" then UbuntuPlan(ctx, m.mac, m.profile.boot)
    else if m.profile.boot == "custom" then ChainPlan(AutoinstallBase(ctx, m.mac) + "autoexec.ipxe")
    else if m.profile.boot == "menu" then ChainPlan(NETBOOT)
    else UnknownPlan
  }

  function PlanOf(ctx: Context, m: Machine, rescue: bool): Plan {
    if rescue then RescuePlan(ctx, m.mac) else TargetPlan(ctx, m)
  }

  predicate LabelChar(c: char) {
    'a' <= c <= 'z' || 'A' <= c <= 'Z' || '0' <= c <= '9' || c == '_'
  }

  function Sanitized(id: string): (r: string)
    ensures |r| == |id|
    ensures forall i | 0 <= i < |id| :: r[i] == if LabelChar(id[i]) then id[i] else '_'
  {
    seq(|id|, i requires 0 <= i < |id| => if LabelChar(id[i]) then id[i] else '_')
  }

  function Underscored(mac: string): string {
    seq(|mac|, i requires 0 <= i < |mac| => if mac[i] == ':' then '_' else mac[i])
  }

  function LabelOf(m: Machine): string {
    "m_" + Sanitized(if m.profile.name == "" then Underscored(m.mac) else m.profile.name)
  }

  /** The label is "m_" and the name, or the MAC of a nameless machine, with every character that is not
      a letter, a digit or an underscore made one. */
  lemma LabelSpells(m: Machine)
    ensures var l, id := LabelOf(m), if m.profile.name == "" then m.mac else m.profile.name;
      && |l| == |id| + 2 && l[0] == 'm' && l[1] == '_'
      && forall i | 0 <= i < |id| ::
           l[i + 2] == if 'a' <= id[i] <= 'z' || 'A' <= id[i] <= 'Z' || '0' <= id[i] <= '9' || id[i] == '_' then id[i] else '_'
  {
    var id := if m.profile.name == "" then Underscored(m.mac) else m.profile.name;
    assert LabelOf(m) == "m_" + Sanitized(id);
    forall i | 0 <= i < |id| ensures LabelOf(m)[i + 2] == Sanitized(id)[i] {}
  }

  function Stop(l: string): seq<Ins> { [Label(l), Quiet("error text"), Reboot] }

  function ErrorBlocks(l: string): seq<Ins> {
    Stop(l + "_fail_dhcp") + Stop(l + "_fail_kernel") + Stop(l + "_fail_initrd") + Stop(l + "_fail_boot")
  }

  function Head(l: string): seq<Ins> {
    [Label(l), Quiet("matched arm"), Menu,
     Item(l + "_boot"), Item("menu_netbootxyz"), Item(l + "_shell"),
     Quiet("press a key"), Choose(l + "_boot", l + "_menu_choice"), Quiet("menu choice"), GotoVar(l + "_menu_choice")]
  }

  function ShellAndBoot(l: string): seq<Ins> {
    [Label(l + "_shell"), Quiet("dropping to shell"), Shell, Goto(l),
     Label(l + "_boot"), Quiet("booting"), ImgFree, Quiet("fetching")]
  }

  function Arm(l: string, plan: Plan): seq<Ins> {
    match plan
    case KernelPlan(k, initrd) =>
      [FetchKernel(k, l + "_fail_kernel"), Quiet("kernel fetched"), FetchInitrd(initrd, l + "_fail_initrd"),
       Quiet("handing over"), BootOr(l + "_fail_boot")] + ErrorBlocks(l)
    case ChainPlan(url) =>
      [ChainOr(url, l + "_fail_chain")] + Stop(l + "_fail_dhcp") + Stop(l + "_fail_chain")
    case UnknownPlan => [Goto("target_default")]
  }

  function BlockOf(l: string, plan: Plan): seq<Ins> {
    Head(l) + ShellAndBoot(l) + Arm(l, plan)
  }

  function Block(ctx: Context, m: Machine, rescue: bool): seq<Ins> {
    BlockOf(LabelOf(m), PlanOf(ctx, m, rescue))
  }

  function Gate(): seq<Ins> {
    [Quiet("#!ipxe"), IseqArch("arm64", "arch_refuse"), IseqArch("arm32", "arch_refuse"), Goto("arch_ok"),
     Label("arch_refuse"), Quiet("unsupported arch"), Reboot,
     Label("arch_ok"), Quiet("stage 0"), DhcpOr("top_fail_dhcp"), Quiet("stage 1")]
  }

  function Netmask(ctx: Context): seq<Ins> {
    if ctx.netmask != "" then [Quiet("stage 2"), Quiet("set net0/netmask " + ctx.netmask), Quiet("phone home")]
    else [Quiet("stage 2"), Quiet("phone home")]
  }

  function Row(m: Machine): (r: seq<Ins>)
    ensures |r| == 5
  {
    var h, l := Mac.Hyphenated(m.mac), LabelOf(m);
    [Quiet("trying"), IseqMac(0, h, l), IseqMac(1, h, l), IseqMac(2, h, l), IseqMac(3, h, l)]
  }

  function Table(ms: seq<Machine>): seq<Ins> {
    if ms == [] then [] else Table(ms[..|ms| - 1]) + Row(ms[|ms| - 1])
  }

  function Before(ctx: Context): seq<Ins> {
    Gate() + Netmask(ctx) + [Quiet("stage 3")]
  }

  function NoMatch(): seq<Ins> { [Quiet("no iseq matched"), Goto("target_default")] }

  function Blocks(ctx: Context, ms: seq<Machine>, rescue: string -> bool): seq<Ins> {
    if ms == [] then []
    else Blocks(ctx, ms[..|ms| - 1], rescue) + Block(ctx, ms[|ms| - 1], rescue(ms[|ms| - 1].mac))
  }

  function Footer(): seq<Ins> {
    [Label("target_default"), Quiet("no fleet match"), Goto("menu_netbootxyz"),
     Label("menu_netbootxyz"), Quiet("chain to netboot.xyz"), ChainOr(NETBOOT, "menu_netbootxyz_fail")]
    + Stop("top_fail_dhcp") + Stop("menu_netbootxyz_fail")
  }

  /** The whole script for the machines in the order given. */
  function Script(ctx: Context, ms: seq<Machine>, rescue: string -> bool): seq<Ins> {
    Before(ctx) + Table(ms) + NoMatch() + Blocks(ctx, ms, rescue) + Footer()
  }

  function MacKey(m: Machine): Key { ("", m.mac) }

  /** The machines in MAC order. */
  ghost function ByMac(machines: map<string, Profile>): seq<Machine> {
    SortBy(MacKey, SomeListing(machines))
  }

  lemma ByMacIsDetermined(machines: map<string, Profile>, ms: seq<Machine>)
    requires IsListing(machines, ms)
    ensures SortBy(MacKey, ms) == ByMac(machines)
    ensures IsListing(machines, ByMac(machines)) && Ascending(MacKey, ByMac(machines))
    ensures forall i, j | 0 <= i < j < |ByMac(machines)| :: Text.Less(ByMac(machines)[i].mac, ByMac(machines)[j].mac)
  {
    ListingsAgree(machines, ms, SomeListing(machines));
    SortIgnoresOrder(MacKey, ms, SomeListing(machines));
    SortBySorts(MacKey, SomeListing(machines));
    var ys := ByMac(machines);
    forall i, j | 0 <= i < j < |ys| ensures ys[i].mac != ys[j].mac && Text.Less(ys[i].mac, ys[j].mac) {
      KeyLessIsTotal(MacKey(ys[i]), MacKey(ys[j]));
    }
  }

  /** The bytes.Buffer all rendering appends to. */
  class Buffer {
    var lines: seq<Ins>

    constructor ()
      ensures lines == []
    {
      lines := [];
    }

    method Write(ls: seq<Ins>)
      modifies this
      ensures lines == old(lines) + ls
    {
      lines := lines + ls;
    }
  }

  method LabelOfMachine(mac: string, name: string) returns (l: string)
    ensures forall p: Profile | p.name == name :: l == LabelOf(Machine(mac, p))
  {
    var id := if name == "" then Underscored(mac) else name;
    l := "m_";
    for i := 0 to |id|
      invariant l == "m_" + Sanitized(id)[..i]
    {
      if LabelChar(id[i]) { l := l + [id[i]]; } else { l := l + ['_']; }
    }
    assert Sanitized(id)[..|id|] == Sanitized(id);
  }

  method WriteMachineErrorBlocks(buf: Buffer, l: string)
    modifies buf
    ensures buf.lines == old(buf.lines) + ErrorBlocks(l)
  {
    buf.Write(Stop(l + "_fail_dhcp"));
    buf.Write(Stop(l + "_fail_kernel"));
    buf.Write(Stop(l + "_fail_initrd"));
    buf.Write(Stop(l + "_fail_boot"));
  }

  /** Kernel, initrd, boot and their error blocks: the arm every installer and the rescue share. */
  method WriteKernelArm(buf: Buffer, l: string, k: Kernel, initrd: string)
    modifies buf
    ensures buf.lines == old(buf.lines) + Arm(l, KernelPlan(k, initrd))
  {
    buf.Write([FetchKernel(k, l + "_fail_kernel"), Quiet("kernel fetched")]);
    buf.Write([FetchInitrd(initrd, l + "_fail_initrd"), Quiet("handing over"), BootOr(l + "_fail_boot")]);
    WriteMachineErrorBlocks(buf, l);
  }

  method WriteMachineBlock(buf: Buffer, ctx: Context, m: Machine, rescue: bool)
    modifies buf
    ensures buf.lines == old(buf.lines) + Block(ctx, m, rescue)
  {
    hide RescuePlan, DebianPlan, KickstartPlan, UbuntuPlan, AutoinstallBase, AssetsBase, LabelOf, ErrorBlocks;
    var l := LabelOfMachine(m.mac, m.profile.name);
    assert l == LabelOf(m);
    buf.Write(Head(l));
    buf.Write(ShellAndBoot(l));
    if rescue {
      var plan := RescuePlan(ctx, m.mac);
      WriteKernelArm(buf, l, plan.kernel, plan.initrd);
      return;
    }
    var plan := TargetPlan(ctx, m);
    match plan {
      case KernelPlan(k, initrd) => WriteKernelArm(buf, l, k, initrd);
      case ChainPlan(url) =>
        buf.Write([ChainOr(url, l + "_fail_chain")]);
        buf.Write(Stop(l + "_fail_dhcp"));
        buf.Write(Stop(l + "_fail_chain"));
      case UnknownPlan => buf.Write([Goto("target_default")]);
    }
  }

  method WriteTable(buf: Buffer, ms: seq<Machine>)
    modifies buf
    ensures buf.lines == old(buf.lines) + Table(ms)
  {
    for i := 0 to |ms|
      invariant buf.lines == old(buf.lines) + Table(ms[..i])
    {
      hide Row, LabelOf;
      var l := LabelOfMachine(ms[i].mac, ms[i].profile.name);
      var h := Mac.Hyphenated(ms[i].mac);
      assert ms[..i + 1][..i] == ms[..i];
      RowIs(ms[i], h, l);
      buf.Write([Quiet("trying"), IseqMac(0, h, l), IseqMac(1, h, l), IseqMac(2, h, l), IseqMac(3, h, l)]);
    }
    assert ms[..|ms|] == ms;
  }

  lemma RowIs(m: Machine, h: string, l: string)
    requires h == Mac.Hyphenated(m.mac) && l == LabelOf(m)
    ensures Row(m) == [Quiet("trying"), IseqMac(0, h, l), IseqMac(1, h, l), IseqMac(2, h, l), IseqMac(3, h, l)]
  {
  }

  method WriteBlocks(buf: Buffer, ctx: Context, ms: seq<Machine>, rescueArmed: string -> bool)
    modifies buf
    ensures buf.lines == old(buf.lines) + Blocks(ctx, ms, rescueArmed)
  {
    hide Block;
    for i := 0 to |ms|
      invariant buf.lines == old(buf.lines) + Blocks(ctx, ms[..i], rescueArmed)
    {
      BlocksStep(ctx, ms, i, rescueArmed);
      WriteMachineBlock(buf, ctx, ms[i], rescueArmed(ms[i].mac));
    }
    assert ms[..|ms|] == ms;
  }

  lemma BlocksStep(ctx: Context, ms: seq<Machine>, i: nat, rescue: string -> bool)
    requires i < |ms|
    ensures Blocks(ctx, ms[..i + 1], rescue) == Blocks(ctx, ms[..i], rescue) + Block(ctx, ms[i], rescue(ms[i].mac))
  {
    hide Block;
    assert ms[..i + 1][..i] == ms[..i];
  }

  /** RenderDispatch: the script for the machines in MAC order, whatever order the fleet map is
      ranged over. */
  method RenderDispatch(ctx: Context, machines: map<string, Profile>, rescueArmed: string -> bool) returns (p: seq<Ins>)
    ensures p == Script(ctx, ByMac(machines), rescueArmed)
  {
    hide Block, Blocks, Gate, Footer, Netmask, Table, NoMatch, ByMac, SortBy;
    var ms := CollectMachines(machines);
    ByMacIsDetermined(machines, ms);
    ms := SortBy(MacKey, ms);
    var buf := new Buffer();
    buf.Write(Gate());
    buf.Write(Netmask(ctx));
    buf.Write([Quiet("stage 3")]);
    assert buf.lines == Before(ctx);
    WriteTable(buf, ms);
    buf.Write(NoMatch());
    WriteBlocks(buf, ctx, ms, rescueArmed);
    buf.Write(Footer());
    return buf.lines;
  }
}
