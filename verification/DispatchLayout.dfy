/** Where the lines of the dispatch script are, and which line each of its labels denotes. */
module DispatchLayout {
  import opened FleetTypes
  import opened Ipxe
  import opened Dispatch
  import opened DispatchMeaning

  lemma HeadLines(l: string, plan: Plan)
    ensures var b := BlockOf(l, plan);
      && |b| == 18 + |Arm(l, plan)|
      && b[0] == Label(l) && b[1].Quiet? && b[2] == Menu && b[3] == Item(l + "_boot")
      && b[4] == Item("menu_netbootxyz") && b[5] == Item(l + "_shell") && b[6].Quiet?
      && b[7] == Choose(l + "_boot", l + "_menu_choice") && b[8].Quiet? && b[9] == GotoVar(l + "_menu_choice")
      && b[10] == Label(l + "_shell") && b[11].Quiet? && b[12] == Shell && b[13] == Goto(l)
      && b[14] == Label(l + "_boot") && b[15].Quiet? && b[16] == ImgFree && b[17].Quiet?
      && (forall k | 0 <= k < |Arm(l, plan)| :: b[18 + k] == Arm(l, plan)[k])
  {
    hide Arm, Head, ShellAndBoot;
    var h, s, a := Head(l), ShellAndBoot(l), Arm(l, plan);
    var b := BlockOf(l, plan);
    HeadIs(l);
    ShellIs(l);
    assert b == h + (s + a);
    assert forall k | 0 <= k < 10 :: b[k] == h[k];
    assert forall k | 0 <= k < 8 + |a| :: b[10 + k] == (s + a)[k];
    assert b[10] == s[0] && b[11] == s[1] && b[12] == s[2] && b[13] == s[3] && b[14] == s[4] && b[15] == s[5]
      && b[16] == s[6] && b[17] == s[7];
    forall k | 0 <= k < |a| ensures b[18 + k] == a[k] { assert b[10 + (8 + k)] == a[k]; }
  }

  lemma HeadIs(l: string)
    ensures var h := Head(l);
      && |h| == 10 && h[0] == Label(l) && h[1].Quiet? && h[2] == Menu && h[3] == Item(l + "_boot")
      && h[4] == Item("menu_netbootxyz") && h[5] == Item(l + "_shell") && h[6].Quiet?
      && h[7] == Choose(l + "_boot", l + "_menu_choice") && h[8].Quiet? && h[9] == GotoVar(l + "_menu_choice")
  {
  }

  lemma ShellIs(l: string)
    ensures var s := ShellAndBoot(l);
      && |s| == 8 && s[0] == Label(l + "_shell") && s[1].Quiet? && s[2] == Shell && s[3] == Goto(l)
      && s[4] == Label(l + "_boot") && s[5].Quiet? && s[6] == ImgFree && s[7].Quiet?
  {
  }

  lemma StopLines(l: string)
    ensures |Stop(l)| == 3 && Stop(l)[0] == Label(l) && Stop(l)[1].Quiet? && Stop(l)[2] == Reboot
  {
  }

  lemma ErrorLines(l: string)
    ensures var e := ErrorBlocks(l);
      && |e| == 12
      && e[0] == Label(l + "_fail_dhcp") && e[1].Quiet? && e[2] == Reboot
      && e[3] == Label(l + "_fail_kernel") && e[4].Quiet? && e[5] == Reboot
      && e[6] == Label(l + "_fail_initrd") && e[7].Quiet? && e[8] == Reboot
      && e[9] == Label(l + "_fail_boot") && e[10].Quiet? && e[11] == Reboot
  {
    hide Stop;
    StopLines(l + "_fail_dhcp");
    StopLines(l + "_fail_kernel");
    StopLines(l + "_fail_initrd");
    StopLines(l + "_fail_boot");
  }

  lemma KernelArmLines(l: string, k: Kernel, initrd: string)
    ensures var a := Arm(l, KernelPlan(k, initrd));
      && |a| == 17
      && a[0] == FetchKernel(k, l + "_fail_kernel") && a[1].Quiet? && a[2] == FetchInitrd(initrd, l + "_fail_initrd")
      && a[3].Quiet? && a[4] == BootOr(l + "_fail_boot")
      && forall i | 0 <= i < 12 :: a[5 + i] == ErrorBlocks(l)[i]
  {
    hide ErrorBlocks;
    ErrorLines(l);
    var head := [FetchKernel(k, l + "_fail_kernel"), Quiet("kernel fetched"), FetchInitrd(initrd, l + "_fail_initrd"),
                 Quiet("handing over"), BootOr(l + "_fail_boot")];
    assert Arm(l, KernelPlan(k, initrd)) == head + ErrorBlocks(l);
  }

  lemma ChainArmLines(l: string, url: string)
    ensures var a := Arm(l, ChainPlan(url));
      && |a| == 7
      && a[0] == ChainOr(url, l + "_fail_chain")
      && a[1] == Label(l + "_fail_dhcp") && a[2].Quiet? && a[3] == Reboot
      && a[4] == Label(l + "_fail_chain") && a[5].Quiet? && a[6] == Reboot
  {
    hide Stop;
    StopLines(l + "_fail_dhcp");
    StopLines(l + "_fail_chain");
  }

  lemma UnknownArmLines(l: string)
    ensures Arm(l, UnknownPlan) == [Goto("target_default")]
  {
  }

  /** The n-th error block of a kernel block. */
  lemma ErrorBlockAt(l: string, k: Kernel, initrd: string, n: nat)
    requires n < 4
    ensures var b, e := BlockOf(l, KernelPlan(k, initrd)), ErrorBlocks(l);
      && |b| == 35 && |e| == 12
      && b[23 + 3 * n] == e[3 * n] && b[24 + 3 * n] == e[3 * n + 1] && b[25 + 3 * n] == e[3 * n + 2]
  {
    hide BlockOf, Arm, ErrorBlocks;
    var b, a := BlockOf(l, KernelPlan(k, initrd)), Arm(l, KernelPlan(k, initrd));
    HeadLines(l, KernelPlan(k, initrd));
    KernelArmLines(l, k, initrd);
    ErrorLines(l);
    assert b[18 + (5 + 3 * n)] == a[5 + 3 * n] && b[18 + (6 + 3 * n)] == a[5 + (3 * n + 1)];
    assert b[18 + (7 + 3 * n)] == a[5 + (3 * n + 2)];
  }

  /** The lines of a kernel block after its head. */
  lemma KernelBlockLines(l: string, k: Kernel, initrd: string)
    ensures var b := BlockOf(l, KernelPlan(k, initrd));
      && |b| == 35
      && b[18] == FetchKernel(k, l + "_fail_kernel") && b[19].Quiet? && b[20] == FetchInitrd(initrd, l + "_fail_initrd")
      && b[21].Quiet? && b[22] == BootOr(l + "_fail_boot")
      && b[23] == Label(l + "_fail_dhcp") && b[24].Quiet? && b[25] == Reboot
      && b[26] == Label(l + "_fail_kernel") && b[27].Quiet? && b[28] == Reboot
      && b[29] == Label(l + "_fail_initrd") && b[30].Quiet? && b[31] == Reboot
      && b[32] == Label(l + "_fail_boot") && b[33].Quiet? && b[34] == Reboot
  {
    hide BlockOf, Arm, ErrorBlocks;
    var b, a := BlockOf(l, KernelPlan(k, initrd)), Arm(l, KernelPlan(k, initrd));
    HeadLines(l, KernelPlan(k, initrd));
    KernelArmLines(l, k, initrd);
    assert b[18 + 0] == a[0] && b[18 + 1] == a[1] && b[18 + 2] == a[2] && b[18 + 3] == a[3] && b[18 + 4] == a[4];
    ErrorLines(l);
    ErrorBlockAt(l, k, initrd, 0);
    ErrorBlockAt(l, k, initrd, 1);
    ErrorBlockAt(l, k, initrd, 2);
    ErrorBlockAt(l, k, initrd, 3);
  }

  lemma ChainBlockLines(l: string, url: string)
    ensures var b := BlockOf(l, ChainPlan(url));
      && |b| == 25
      && b[18] == ChainOr(url, l + "_fail_chain")
      && b[19] == Label(l + "_fail_dhcp") && b[20].Quiet? && b[21] == Reboot
      && b[22] == Label(l + "_fail_chain") && b[23].Quiet? && b[24] == Reboot
  {
    hide BlockOf, Arm;
    var b, a := BlockOf(l, ChainPlan(url)), Arm(l, ChainPlan(url));
    HeadLines(l, ChainPlan(url));
    ChainArmLines(l, url);
    assert b[18 + 0] == a[0] && b[18 + 1] == a[1] && b[18 + 2] == a[2] && b[18 + 3] == a[3];
    assert b[18 + 4] == a[4] && b[18 + 5] == a[5] && b[18 + 6] == a[6];
  }

  lemma UnknownBlockLine(l: string)
    ensures var b := BlockOf(l, UnknownPlan); |b| == 19 && b[18] == Goto("target_default")
  {
    hide BlockOf, Arm;
    HeadLines(l, UnknownPlan);
    UnknownArmLines(l);
    assert BlockOf(l, UnknownPlan)[18 + 0] == Arm(l, UnknownPlan)[0];
  }

  /** The line numbers at which a kernel block defines labels. */
  lemma KernelLabels(l: string, plan: Plan, i: nat)
    requires plan.KernelPlan? && i < |BlockOf(l, plan)| && BlockOf(l, plan)[i].Label?
    ensures i in {0, 10, 14, 23, 26, 29, 32}
  {
    hide BlockOf, Arm;
    if i < 18 { HeadLabels(l, plan, i); } else { KernelBlockLines(l, plan.kernel, plan.initrd); }
  }

  lemma HeadLabels(l: string, plan: Plan, i: nat)
    requires i < 18 && i < |BlockOf(l, plan)| && BlockOf(l, plan)[i].Label?
    ensures i in {0, 10, 14}
  {
    hide BlockOf, Arm;
    HeadLines(l, plan);
  }

  /** The label suffixes, told apart by length or by one character. */
  lemma Suffixes(l: string)
    ensures |l + "_shell"| == |l| + 6 && |l + "_boot"| == |l| + 5 && |l + "_fail_dhcp"| == |l| + 10
    ensures |l + "_fail_kernel"| == |l| + 12 && |l + "_fail_initrd"| == |l| + 12 && |l + "_fail_boot"| == |l| + 10
    ensures |l + "_fail_chain"| == |l| + 11
    ensures (l + "_fail_dhcp")[|l| + 6] == 'd' && (l + "_fail_boot")[|l| + 6] == 'b'
    ensures (l + "_fail_kernel")[|l| + 6] == 'k' && (l + "_fail_initrd")[|l| + 6] == 'i'
  {
  }

  lemma KernelLabelsDistinct(l: string, plan: Plan, i: nat, j: nat)
    requires plan.KernelPlan?
    requires var b := BlockOf(l, plan); i < j < |b| && b[i].Label? && b[j].Label?
    ensures var b := BlockOf(l, plan); b[i] != b[j]
  {
    hide BlockOf, Arm, ErrorBlocks;
    HeadLines(l, plan);
    Suffixes(l);
    KernelBlockLines(l, plan.kernel, plan.initrd);
    KernelLabels(l, plan, i);
    KernelLabels(l, plan, j);
  }

  /** Within one block no label is defined twice. */
  lemma BlockLabelsDistinct(l: string, plan: Plan, i: nat, j: nat)
    requires var b := BlockOf(l, plan); i < j < |b| && b[i].Label? && b[j].Label?
    ensures var b := BlockOf(l, plan); b[i] != b[j]
  {
    hide BlockOf, Arm, ErrorBlocks;
    HeadLines(l, plan);
    Suffixes(l);
    match plan
    case KernelPlan(_, _) => KernelLabelsDistinct(l, plan, i, j);
    case ChainPlan(url) => ChainBlockLines(l, url);
    case UnknownPlan => UnknownBlockLine(l);
  }

  /** b stands at offset o of the script. */
  ghost predicate Stands(p: seq<Ins>, o: nat, b: seq<Ins>) {
    o + |b| <= |p| && forall k | 0 <= k < |b| :: p[o + k] == b[k]
  }

  /** It stands there, and a goto to a label that b names and defines goes to b's own definition. */
  ghost predicate Placed(p: seq<Ins>, o: nat, b: seq<Ins>) {
    && Stands(p, o, b)
    && (forall k | 0 <= k < |b| && b[k].Label? && NamesIn(b, b[k].name) :: FindLabel(p, b[k].name) == At(o + k))
  }

  ghost predicate FooterPlaced(p: seq<Ins>, f: nat) {
    && f + 12 == |p|
    && (forall k | 0 <= k < 12 :: p[f + k] == Footer()[k])
    && FindLabel(p, "target_default") == At(f) && FindLabel(p, "menu_netbootxyz") == At(f + 3)
    && FindLabel(p, "top_fail_dhcp") == At(f + 6) && FindLabel(p, "menu_netbootxyz_fail") == At(f + 9)
  }

  /** Every machine label starts with "m_". */
  predicate MachineLabel(l: string) {
    |l| >= 2 && l[1] == '_'
  }

  lemma BlockLabels(l: string, plan: Plan)
    requires MachineLabel(l)
    ensures forall x | x in Labels(BlockOf(l, plan)) :: MachineLabel(x)
  {
    var b := BlockOf(l, plan);
    forall x | x in Labels(b) ensures MachineLabel(x) {
      var i :| 0 <= i < |b| && b[i] == Label(x);
      BlockLabelAt(l, plan, i);
    }
  }

  lemma BlockLabelAt(l: string, plan: Plan, i: nat)
    requires MachineLabel(l) && i < |BlockOf(l, plan)| && BlockOf(l, plan)[i].Label?
    ensures MachineLabel(BlockOf(l, plan)[i].name)
  {
    hide BlockOf, Arm, ErrorBlocks;
    HeadLines(l, plan);
    match plan
    case KernelPlan(k, initrd) => { KernelLabels(l, plan, i); KernelBlockLines(l, k, initrd); }
    case ChainPlan(url) => ChainBlockLines(l, url);
    case UnknownPlan => UnknownBlockLine(l);
  }

  lemma LabelOfIsMachineLabel(m: Machine)
    ensures MachineLabel(LabelOf(m))
  {
  }

  lemma {:induction false} LabelsOfBlocks(ctx: Context, ms: seq<Machine>, rescue: string -> bool)
    ensures forall x | x in Labels(Blocks(ctx, ms, rescue)) ::
      MachineLabel(x) && exists i :: 0 <= i < |ms| && x in Labels(Block(ctx, ms[i], rescue(ms[i].mac)))
    decreases |ms|
  {
    hide BlockOf, PlanOf, LabelOf, Labels;
    if ms == [] {
      NoLabels([]);
    } else {
      var last := |ms| - 1;
      LabelsOfBlocks(ctx, ms[..last], rescue);
      LabelOfIsMachineLabel(ms[last]);
      BlockLabels(LabelOf(ms[last]), PlanOf(ctx, ms[last], rescue(ms[last].mac)));
      LabelsConcat(Blocks(ctx, ms[..last], rescue), Block(ctx, ms[last], rescue(ms[last].mac)));
    }
  }

  lemma NoLabels(p: seq<Ins>)
    requires forall i | i in p :: !i.Label?
    ensures Labels(p) == {}
  {
  }

  lemma RowLabels(m: Machine)
    ensures Labels(Row(m)) == {}
  {
    NoLabels(Row(m));
  }

  lemma {:induction false} TableShape(ms: seq<Machine>)
    ensures |Table(ms)| == 5 * |ms| && Labels(Table(ms)) == {}
    decreases |ms|
  {
    if ms != [] {
      hide Row, Labels;
      var last := |ms| - 1;
      TableShape(ms[..last]);
      RowLabels(ms[last]);
      LabelsConcat(Table(ms[..last]), Row(ms[last]));
    } else {
      NoLabels([]);
    }
  }

  lemma {:induction false} TableLine(ms: seq<Machine>, j: nat, k: nat)
    requires j < |ms| && k < 5
    ensures 5 * j + k < |Table(ms)| && Table(ms)[5 * j + k] == Row(ms[j])[k]
    decreases |ms|
  {
    hide Row, Labels;
    var last := |ms| - 1;
    TableShape(ms[..last]);
    if j < last { TableLine(ms[..last], j, k); }
  }

  lemma TableLines(ms: seq<Machine>)
    ensures |Table(ms)| == 5 * |ms| && Labels(Table(ms)) == {}
    ensures forall j, k | 0 <= j < |ms| && 0 <= k < 5 :: Table(ms)[5 * j + k] == Row(ms[j])[k]
  {
    hide Row, Labels, Table;
    TableShape(ms);
    forall j, k | 0 <= j < |ms| && 0 <= k < 5 ensures Table(ms)[5 * j + k] == Row(ms[j])[k] {
      TableLine(ms, j, k);
    }
  }

  function Upto(ctx: Context, ms: seq<Machine>): seq<Ins> {
    Before(ctx) + Table(ms) + NoMatch()
  }

  lemma LabelsUpto(ctx: Context, ms: seq<Machine>)
    ensures forall x | x in Labels(Upto(ctx, ms)) :: x == "arch_refuse" || x == "arch_ok"
  {
    hide Table;
    TableLines(ms);
    NoLabels(NoMatch());
    NoLabels(Netmask(ctx) + [Quiet("stage 3")]);
    assert Before(ctx) == Gate() + (Netmask(ctx) + [Quiet("stage 3")]);
    LabelsConcat(Gate(), Netmask(ctx) + [Quiet("stage 3")]);
    GateLabels();
    LabelsConcat(Before(ctx), Table(ms));
    LabelsConcat(Before(ctx) + Table(ms), NoMatch());
  }

  lemma GateLabels()
    ensures forall x | x in Labels(Gate()) :: x == "arch_refuse" || x == "arch_ok"
  {
  }

  function BlockStart(ctx: Context, ms: seq<Machine>, rescue: string -> bool, j: nat): nat
    requires j <= |ms|
  {
    |Upto(ctx, ms)| + |Blocks(ctx, ms[..j], rescue)|
  }

  lemma {:induction false} BlocksSplit(ctx: Context, ms: seq<Machine>, rescue: string -> bool, j: nat) returns (rest: seq<Ins>)
    requires j < |ms|
    ensures Blocks(ctx, ms, rescue) == Blocks(ctx, ms[..j], rescue) + Block(ctx, ms[j], rescue(ms[j].mac)) + rest
    decreases |ms|
  {
    hide Block;
    var last := |ms| - 1;
    if j == last {
      rest := [];
    } else {
      var r := BlocksSplit(ctx, ms[..last], rescue, j);
      assert ms[..last][..j] == ms[..j];
      rest := r + Block(ctx, ms[last], rescue(ms[last].mac));
    }
  }

  /** The labels defined before block j are the arch labels and those of earlier machines. */
  lemma BlockPosition(ctx: Context, ms: seq<Machine>, rescue: string -> bool, j: nat) returns (a: seq<Ins>, c: seq<Ins>)
    requires j < |ms|
    ensures Script(ctx, ms, rescue) == a + Block(ctx, ms[j], rescue(ms[j].mac)) + c
    ensures |a| == BlockStart(ctx, ms, rescue, j)
    ensures forall x | x in Labels(a) && MachineLabel(x) ::
      exists i :: 0 <= i < j && x in Labels(Block(ctx, ms[i], rescue(ms[i].mac)))
    ensures forall i, x | 0 <= i < j && x in Labels(Block(ctx, ms[i], rescue(ms[i].mac))) :: x in Labels(a)
  {
    hide Block, Footer, Blocks, Upto, Labels;
    var rest := BlocksSplit(ctx, ms, rescue, j);
    a := Upto(ctx, ms) + Blocks(ctx, ms[..j], rescue);
    c := rest + Footer();
    ScriptIs(ctx, ms, rescue);
    LabelsConcat(Upto(ctx, ms), Blocks(ctx, ms[..j], rescue));
    forall i, x | 0 <= i < j && x in Labels(Block(ctx, ms[i], rescue(ms[i].mac))) ensures x in Labels(a) {
      BlockLabelsIn(ctx, ms, rescue, i, j);
    }
    forall x | x in Labels(a) && MachineLabel(x)
      ensures exists i :: 0 <= i < j && x in Labels(Block(ctx, ms[i], rescue(ms[i].mac)))
    {
      BlockAbove(ctx, ms, rescue, j, x);
    }
  }

  lemma BlockAbove(ctx: Context, ms: seq<Machine>, rescue: string -> bool, j: nat, x: string)
    requires j < |ms| && MachineLabel(x) && (x in Labels(Upto(ctx, ms)) || x in Labels(Blocks(ctx, ms[..j], rescue)))
    ensures exists i :: 0 <= i < j && x in Labels(Block(ctx, ms[i], rescue(ms[i].mac)))
  {
    hide Block, Blocks, Upto, Labels;
    LabelsUpto(ctx, ms);
    assert x !in Labels(Upto(ctx, ms)) by { assert !MachineLabel("arch_refuse") && !MachineLabel("arch_ok"); }
    DefiningBlock(ctx, ms, rescue, j, x);
  }

  lemma {:induction false} DefiningBlock(ctx: Context, ms: seq<Machine>, rescue: string -> bool, j: nat, x: string)
    requires j <= |ms| && x in Labels(Blocks(ctx, ms[..j], rescue))
    ensures exists i :: 0 <= i < j && x in Labels(Block(ctx, ms[i], rescue(ms[i].mac)))
  {
    hide Block, Blocks, Labels;
    LabelsOfBlocks(ctx, ms[..j], rescue);
    var i :| 0 <= i < j && x in Labels(Block(ctx, ms[..j][i], rescue(ms[..j][i].mac)));
    assert ms[..j][i] == ms[i];
  }

  lemma BlockLabelsIn(ctx: Context, ms: seq<Machine>, rescue: string -> bool, i: nat, j: nat)
    requires i < j <= |ms|
    ensures Labels(Block(ctx, ms[i], rescue(ms[i].mac))) <= Labels(Blocks(ctx, ms[..j], rescue))
  {
    hide Block, Blocks, Labels;
    var r := BlocksSplit(ctx, ms[..j], rescue, i);
    assert ms[..j][i] == ms[i];
    var before, b := Blocks(ctx, ms[..j][..i], rescue), Block(ctx, ms[i], rescue(ms[i].mac));
    LabelsConcat(before + b, r);
    LabelsConcat(before, b);
  }

  lemma ScriptIs(ctx: Context, ms: seq<Machine>, rescue: string -> bool)
    ensures Script(ctx, ms, rescue) == Upto(ctx, ms) + Blocks(ctx, ms, rescue) + Footer()
  {
  }
}
