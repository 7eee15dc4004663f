/** Running the dispatch script gives its meaning. */
module DispatchCorrect {
  import opened FleetTypes
  import opened Ipxe
  import opened Dispatch
  import opened DispatchMeaning
  import opened DispatchLayout
  import Mac

  lemma BlockStands(ctx: Context, ms: seq<Machine>, rescue: string -> bool, j: nat)
    requires j < |ms|
    ensures Stands(Script(ctx, ms, rescue), BlockStart(ctx, ms, rescue, j), Block(ctx, ms[j], rescue(ms[j].mac)))
  {
    hide Block, BlockStart, Script;
    var a, c := BlockPosition(ctx, ms, rescue, j);
  }

  /** Where a jump to a label of machine j's block lands: at the block's own definition exactly when
      no earlier machine's block defines that label. */
  lemma OwnLabel(ctx: Context, ms: seq<Machine>, rescue: string -> bool, j: nat, k: nat)
    requires j < |ms|
    requires var b := Block(ctx, ms[j], rescue(ms[j].mac)); k < |b| && b[k].Label?
    ensures var l := Block(ctx, ms[j], rescue(ms[j].mac))[k].name;
      FindLabel(Script(ctx, ms, rescue), l) == At(BlockStart(ctx, ms, rescue, j) + k)
      <==> forall i | 0 <= i < j :: l !in Labels(Block(ctx, ms[i], rescue(ms[i].mac)))
  {
    hide BlockOf, PlanOf, LabelOf, BlockStart, Script;
    var p, b := Script(ctx, ms, rescue), Block(ctx, ms[j], rescue(ms[j].mac));
    var l := b[k].name;
    var a, c := BlockPosition(ctx, ms, rescue, j);
    LabelOfIsMachineLabel(ms[j]);
    BlockLabelAt(LabelOf(ms[j]), PlanOf(ctx, ms[j], rescue(ms[j].mac)), k);
    if l !in Labels(a) {
      forall i | 0 <= i < k ensures b[i] != Label(l) {
        if b[i].Label? { BlockLabelsDistinct(LabelOf(ms[j]), PlanOf(ctx, ms[j], rescue(ms[j].mac)), i, k); }
      }
      FindIn(p, a, b, c, k, l);
    } else {
      assert Label(l) in a;
      var q :| 0 <= q < |a| && a[q] == Label(l);
      assert p[q] == Label(l);
    }
  }

  lemma BlockIsPlaced(ctx: Context, ms: seq<Machine>, rescue: string -> bool, j: nat)
    requires j < |ms| && ClearAbove(ctx, ms, rescue, j)
    ensures Placed(Script(ctx, ms, rescue), BlockStart(ctx, ms, rescue, j), Block(ctx, ms[j], rescue(ms[j].mac)))
  {
    hide Block, BlockStart, Script, Labels, NamesIn, FindLabel;
    var p, b := Script(ctx, ms, rescue), Block(ctx, ms[j], rescue(ms[j].mac));
    BlockStands(ctx, ms, rescue, j);
    forall k | 0 <= k < |b| && b[k].Label? && NamesIn(b, b[k].name)
      ensures FindLabel(p, b[k].name) == At(BlockStart(ctx, ms, rescue, j) + k)
    {
      OwnLabel(ctx, ms, rescue, j, k);
    }
  }

  lemma FooterIsPlaced(ctx: Context, ms: seq<Machine>, rescue: string -> bool)
    ensures var p := Script(ctx, ms, rescue); |p| >= 12 && FooterPlaced(p, |p| - 12)
  {
    hide Block, Blocks, Upto, Labels, Script, Footer, FindLabel, MachineLabel;
    var p, a := Script(ctx, ms, rescue), Upto(ctx, ms) + Blocks(ctx, ms, rescue);
    ScriptIs(ctx, ms, rescue);
    LabelsConcat(Upto(ctx, ms), Blocks(ctx, ms, rescue));
    LabelsUpto(ctx, ms);
    LabelsOfBlocks(ctx, ms, rescue);
    FixedLabels();
    FooterLines();
    FooterLabels(p, a);
  }

  lemma FooterLabels(p: seq<Ins>, a: seq<Ins>)
    requires p == a + Footer()
    requires "target_default" !in Labels(a) && "menu_netbootxyz" !in Labels(a)
    requires "top_fail_dhcp" !in Labels(a) && "menu_netbootxyz_fail" !in Labels(a)
    ensures |p| == |a| + 12 && FooterPlaced(p, |a|)
  {
    hide Footer, FindLabel, Labels;
    FooterLines();
    FixedLabels();
    FourLabels(p, a, Footer(), "target_default", "menu_netbootxyz", "top_fail_dhcp", "menu_netbootxyz_fail");
  }

  lemma FourLabels(p: seq<Ins>, a: seq<Ins>, f: seq<Ins>, l0: string, l3: string, l6: string, l9: string)
    requires p == a + f && |f| == 12
    requires f[0] == Label(l0) && f[3] == Label(l3) && f[6] == Label(l6) && f[9] == Label(l9)
    requires forall k | 0 <= k < 12 && f[k].Label? :: k in {0, 3, 6, 9}
    requires l0 != l3 && l0 != l6 && l0 != l9 && l3 != l6 && l3 != l9 && l6 != l9
    requires l0 !in Labels(a) && l3 !in Labels(a) && l6 !in Labels(a) && l9 !in Labels(a)
    ensures FindLabel(p, l0) == At(|a|) && FindLabel(p, l3) == At(|a| + 3)
    ensures FindLabel(p, l6) == At(|a| + 6) && FindLabel(p, l9) == At(|a| + 9)
  {
    hide FindLabel, Labels;
    assert p == a + f + [];
    FindIn(p, a, f, [], 0, l0);
    FindIn(p, a, f, [], 3, l3);
    FindIn(p, a, f, [], 6, l6);
    FindIn(p, a, f, [], 9, l9);
  }

  lemma FooterLines()
    ensures var f := Footer();
      && |f| == 12
      && f[0] == Label("target_default") && f[1].Quiet? && f[2] == Goto("menu_netbootxyz")
      && f[3] == Label("menu_netbootxyz") && f[4].Quiet? && f[5] == ChainOr(NETBOOT, "menu_netbootxyz_fail")
      && f[6] == Label("top_fail_dhcp") && f[7].Quiet? && f[8] == Reboot
      && f[9] == Label("menu_netbootxyz_fail") && f[10].Quiet? && f[11] == Reboot
  {
    hide Stop;
    StopLines("top_fail_dhcp");
    StopLines("menu_netbootxyz_fail");
  }

  lemma FixedLabels()
    ensures !MachineLabel("target_default") && !MachineLabel("menu_netbootxyz")
    ensures !MachineLabel("top_fail_dhcp") && !MachineLabel("menu_netbootxyz_fail")
    ensures "target_default" != "arch_refuse" && "target_default" != "arch_ok"
    ensures "menu_netbootxyz" != "arch_refuse" && "menu_netbootxyz" != "arch_ok"
    ensures "top_fail_dhcp" != "arch_refuse" && "top_fail_dhcp" != "arch_ok"
    ensures "menu_netbootxyz_fail" != "arch_refuse" && "menu_netbootxyz_fail" != "arch_ok"
    ensures "target_default" != "menu_netbootxyz" && "target_default" != "top_fail_dhcp"
    ensures "menu_netbootxyz" != "top_fail_dhcp" && "menu_netbootxyz" != "menu_netbootxyz_fail"
    ensures "top_fail_dhcp" != "menu_netbootxyz_fail" && "target_default" != "menu_netbootxyz_fail"
  {
    assert "target_default"[0] == 't' && "target_default"[1] == 'a';
    assert "menu_netbootxyz"[0] == 'm' && "menu_netbootxyz"[1] == 'e';
    assert "top_fail_dhcp"[0] == 't' && "top_fail_dhcp"[1] == 'o';
    assert "menu_netbootxyz_fail"[0] == 'm' && "menu_netbootxyz_fail"[1] == 'e';
    assert "arch_refuse"[0] == 'a' && "arch_ok"[0] == 'a';
    assert |"menu_netbootxyz"| == 15 && |"menu_netbootxyz_fail"| == 20;
  }

  /** The jump of the table to machine j's label. */
  lemma EntryLabel(ctx: Context, ms: seq<Machine>, rescue: string -> bool, j: nat)
    requires j < |ms|
    ensures FindLabel(Script(ctx, ms, rescue), LabelOf(ms[j])) == At(BlockStart(ctx, ms, rescue, j))
      <==> forall i | 0 <= i < j :: LabelOf(ms[j]) !in Labels(Block(ctx, ms[i], rescue(ms[i].mac)))
  {
    hide BlockOf, PlanOf, LabelOf, BlockStart, Script, FindLabel, Labels;
    HeadLines(LabelOf(ms[j]), PlanOf(ctx, ms[j], rescue(ms[j].mac)));
    OwnLabel(ctx, ms, rescue, j, 0);
  }

  // ----- running the script -----

  lemma RunStop(p: seq<Ins>, cl: Client, s: State)
    requires s.Running? && s.pc + 3 <= |p|
    requires p[s.pc].Label? && p[s.pc + 1].Quiet? && p[s.pc + 2] == Reboot
    ensures Reaches(p, cl, s, Halted(Rebooted))
  {
    Trace(p, cl, [s, s.(pc := s.pc + 1), s.(pc := s.pc + 2), Halted(Rebooted)]);
  }

  lemma RunNetboot(p: seq<Ins>, cl: Client, f: nat, s: State)
    requires FooterPlaced(p, f) && s.Running? && s.pc == f + 3
    ensures Reaches(p, cl, s, Halted(NetbootOutcome(cl)))
  {
    hide FindLabel, Footer;
    FooterLines();
    assert p[f + 3] == Footer()[3] && p[f + 4] == Footer()[4] && p[f + 5] == Footer()[5];
    if NETBOOT in cl.fetchable {
      Trace(p, cl, [s, s.(pc := f + 4), s.(pc := f + 5), Halted(Chained(NETBOOT))]);
    } else {
      Trace(p, cl, [s, s.(pc := f + 4), s.(pc := f + 5), s.(pc := f + 9)]);
      assert p[f + 9] == Footer()[9] && p[f + 10] == Footer()[10] && p[f + 11] == Footer()[11];
      RunStop(p, cl, s.(pc := f + 9));
      ReachesTrans(p, cl, s, s.(pc := f + 9), Halted(Rebooted));
    }
  }

  lemma RunDefault(p: seq<Ins>, cl: Client, f: nat, s: State)
    requires FooterPlaced(p, f) && s.Running? && s.pc == f
    ensures Reaches(p, cl, s, Halted(NetbootOutcome(cl)))
  {
    hide FindLabel, Footer, NetbootOutcome;
    FooterLines();
    assert p[f] == Footer()[0] && p[f + 1] == Footer()[1] && p[f + 2] == Footer()[2];
    Trace(p, cl, [s, s.(pc := f + 1), s.(pc := f + 2), s.(pc := f + 3)]);
    RunNetboot(p, cl, f, s.(pc := f + 3));
    ReachesTrans(p, cl, s, s.(pc := f + 3), Halted(NetbootOutcome(cl)));
  }

  /** From a block's boot label to the end of the run. */
  lemma RunBoot(p: seq<Ins>, cl: Client, o: nat, f: nat, l: string, plan: Plan, s: State)
    requires Placed(p, o, BlockOf(l, plan)) && FooterPlaced(p, f) && s.Running? && s.pc == o + 14
    ensures Reaches(p, cl, s, Halted(PlanOutcome(plan, cl)))
  {
    hide FindLabel, BlockOf, Arm, PlanOutcome, NetbootOutcome, FooterPlaced;
    HeadLines(l, plan);
    var b := BlockOf(l, plan);
    assert p[o + 14] == b[14] && p[o + 15] == b[15] && p[o + 16] == b[16] && p[o + 17] == b[17];
    var t := s.(pc := o + 18, images := []);
    Trace(p, cl, [s, s.(pc := o + 15), s.(pc := o + 16), s.(pc := o + 17, images := []), t]);
    match plan
    case KernelPlan(k, initrd) => RunKernelArm(p, cl, o, l, k, initrd, t); ReachesTrans(p, cl, s, t, Halted(PlanOutcome(plan, cl)));
    case ChainPlan(url) => RunChainArm(p, cl, o, l, url, t); ReachesTrans(p, cl, s, t, Halted(PlanOutcome(plan, cl)));
    case UnknownPlan =>
      RunUnknownArm(p, cl, o, f, l, t);
      ReachesTrans(p, cl, s, t, Halted(PlanOutcome(plan, cl)));
  }

  lemma RunUnknownArm(p: seq<Ins>, cl: Client, o: nat, f: nat, l: string, s: State)
    requires Placed(p, o, BlockOf(l, UnknownPlan)) && FooterPlaced(p, f) && s.Running? && s.pc == o + 18
    ensures Reaches(p, cl, s, Halted(PlanOutcome(UnknownPlan, cl)))
  {
    hide FindLabel, BlockOf;
    UnknownBlockLine(l);
    assert p[o + 18] == Goto("target_default");
    RunDefault(p, cl, f, s.(pc := f));
    ReachesStep(p, cl, s, Halted(NetbootOutcome(cl)));
  }

  lemma RunChainArm(p: seq<Ins>, cl: Client, o: nat, l: string, url: string, s: State)
    requires Placed(p, o, BlockOf(l, ChainPlan(url))) && s.Running? && s.pc == o + 18
    ensures Reaches(p, cl, s, Halted(PlanOutcome(ChainPlan(url), cl)))
  {
    hide FindLabel, BlockOf, Arm;
    ChainBlockLines(l, url);
    var b := BlockOf(l, ChainPlan(url));
    assert p[o + 18] == b[18];
    if url in cl.fetchable {
      Trace(p, cl, [s, Halted(Chained(url))]);
    } else {
      assert p[o + 22] == b[22] && p[o + 23] == b[23] && p[o + 24] == b[24];
      assert NamesIn(b, l + "_fail_chain") by { assert b[18] in b && l + "_fail_chain" in Named(b[18]); }
      assert FindLabel(p, l + "_fail_chain") == At(o + 22);
      RunStop(p, cl, s.(pc := o + 22));
      ReachesStep(p, cl, s, Halted(Rebooted));
    }
  }

  /** The three error blocks of a kernel arm that something jumps to. */
  lemma KernelErrors(p: seq<Ins>, cl: Client, o: nat, l: string, k: Kernel, initrd: string)
    requires Placed(p, o, BlockOf(l, KernelPlan(k, initrd)))
    ensures |BlockOf(l, KernelPlan(k, initrd))| == 35
    ensures p[o + 18] == FetchKernel(k, l + "_fail_kernel") && p[o + 19].Quiet?
    ensures p[o + 20] == FetchInitrd(initrd, l + "_fail_initrd") && p[o + 21].Quiet?
    ensures p[o + 22] == BootOr(l + "_fail_boot")
    ensures FindLabel(p, l + "_fail_kernel") == At(o + 26) && FindLabel(p, l + "_fail_initrd") == At(o + 29)
    ensures FindLabel(p, l + "_fail_boot") == At(o + 32)
    ensures forall s: State | s.Running? && s.pc in {o + 26, o + 29, o + 32} :: Reaches(p, cl, s, Halted(Rebooted))
  {
    hide FindLabel, BlockOf, Reaches;
    var b := BlockOf(l, KernelPlan(k, initrd));
    KernelBlockLines(l, k, initrd);
    assert p[o + 18] == b[18] && p[o + 19] == b[19] && p[o + 20] == b[20] && p[o + 21] == b[21] && p[o + 22] == b[22];
    assert NamesIn(b, l + "_fail_kernel") by { assert b[18] in b && l + "_fail_kernel" in Named(b[18]); }
    assert NamesIn(b, l + "_fail_initrd") by { assert b[20] in b && l + "_fail_initrd" in Named(b[20]); }
    assert NamesIn(b, l + "_fail_boot") by { assert b[22] in b && l + "_fail_boot" in Named(b[22]); }
    forall s: State | s.Running? && s.pc in {o + 26, o + 29, o + 32} ensures Reaches(p, cl, s, Halted(Rebooted)) {
      RunErrorBlock(p, cl, o, l, k, initrd, s);
    }
  }

  lemma RunErrorBlock(p: seq<Ins>, cl: Client, o: nat, l: string, k: Kernel, initrd: string, s: State)
    requires Stands(p, o, BlockOf(l, KernelPlan(k, initrd))) && s.Running? && s.pc in {o + 26, o + 29, o + 32}
    ensures Reaches(p, cl, s, Halted(Rebooted))
  {
    hide BlockOf, Reaches;
    KernelBlockLines(l, k, initrd);
    var b, i := BlockOf(l, KernelPlan(k, initrd)), s.pc - o;
    assert p[o + i] == b[i] && p[o + (i + 1)] == b[i + 1] && p[o + (i + 2)] == b[i + 2];
    RunStop(p, cl, s);
  }

  lemma RunKernelArm(p: seq<Ins>, cl: Client, o: nat, l: string, k: Kernel, initrd: string, s: State)
    requires Placed(p, o, BlockOf(l, KernelPlan(k, initrd))) && s.Running? && s.pc == o + 18 && s.images == []
    ensures Reaches(p, cl, s, Halted(PlanOutcome(KernelPlan(k, initrd), cl)))
  {
    hide FindLabel, BlockOf, Reaches, Placed, Step;
    KernelErrors(p, cl, o, l, k, initrd);
    if k.url !in cl.fetchable {
      Kernelless(p, cl, o, l, k, s);
      ReachesTrans(p, cl, s, s.(pc := o + 26), Halted(Rebooted));
    } else {
      var t := s.(pc := o + 20, images := [KernelImage(k)]);
      FetchesKernel(p, cl, o, l, k, s);
      FromInitrd(p, cl, o, l, k, initrd, t);
      ReachesTrans(p, cl, s, t, Halted(PlanOutcome(KernelPlan(k, initrd), cl)));
    }
  }

  lemma Kernelless(p: seq<Ins>, cl: Client, o: nat, l: string, k: Kernel, s: State)
    requires s.Running? && s.pc == o + 18 < |p| && p[o + 18] == FetchKernel(k, l + "_fail_kernel") && k.url !in cl.fetchable
    requires FindLabel(p, l + "_fail_kernel") == At(o + 26)
    ensures Reaches(p, cl, s, s.(pc := o + 26))
  {
    hide FindLabel, Reaches;
    Trace(p, cl, [s, s.(pc := o + 26)]);
  }

  lemma FetchesKernel(p: seq<Ins>, cl: Client, o: nat, l: string, k: Kernel, s: State)
    requires s.Running? && s.pc == o + 18 && o + 19 < |p| && s.images == [] && k.url in cl.fetchable
    requires p[o + 18] == FetchKernel(k, l + "_fail_kernel") && p[o + 19].Quiet?
    ensures Reaches(p, cl, s, s.(pc := o + 20, images := [KernelImage(k)]))
  {
    hide FindLabel, Reaches;
    var s1 := s.(pc := o + 19, images := [KernelImage(k)]);
    assert [] + [KernelImage(k)] == [KernelImage(k)];
    Trace(p, cl, [s, s1, s1.(pc := o + 20)]);
  }

  lemma FromInitrd(p: seq<Ins>, cl: Client, o: nat, l: string, k: Kernel, initrd: string, s: State)
    requires Placed(p, o, BlockOf(l, KernelPlan(k, initrd))) && k.url in cl.fetchable
    requires s.Running? && s.pc == o + 20 && s.images == [KernelImage(k)]
    ensures Reaches(p, cl, s, Halted(PlanOutcome(KernelPlan(k, initrd), cl)))
  {
    hide FindLabel, BlockOf, Reaches, Placed;
    KernelErrors(p, cl, o, l, k, initrd);
    if initrd !in cl.fetchable {
      Trace(p, cl, [s, s.(pc := o + 29)]);
      ReachesTrans(p, cl, s, s.(pc := o + 29), Halted(Rebooted));
    } else {
      var s3 := s.(pc := o + 21, images := [KernelImage(k), InitrdImage(initrd)]);
      var s4 := s3.(pc := o + 22);
      assert [KernelImage(k)] + [InitrdImage(initrd)] == [KernelImage(k), InitrdImage(initrd)];
      if cl.bootWorks {
        Trace(p, cl, [s, s3, s4, Halted(Booted(s4.images))]);
      } else {
        Trace(p, cl, [s, s3, s4, s4.(pc := o + 32)]);
        ReachesTrans(p, cl, s, s4.(pc := o + 32), Halted(Rebooted));
      }
    }
  }

  lemma MenuLines(p: seq<Ins>, o: nat, l: string, plan: Plan)
    requires Stands(p, o, BlockOf(l, plan))
    ensures o + 18 <= |p|
    ensures p[o] == Label(l) && p[o + 1].Quiet? && p[o + 2] == Menu && p[o + 3] == Item(l + "_boot")
    ensures p[o + 4] == Item("menu_netbootxyz") && p[o + 5] == Item(l + "_shell") && p[o + 6].Quiet?
    ensures p[o + 7] == Choose(l + "_boot", l + "_menu_choice") && p[o + 8].Quiet? && p[o + 9] == GotoVar(l + "_menu_choice")
    ensures p[o + 10] == Label(l + "_shell") && p[o + 11].Quiet? && p[o + 12] == Shell && p[o + 13] == Goto(l)
  {
    hide BlockOf, Arm;
    HeadLines(l, plan);
    var b := BlockOf(l, plan);
    assert p[o + 0] == b[0] && p[o + 1] == b[1] && p[o + 2] == b[2] && p[o + 3] == b[3] && p[o + 4] == b[4];
    assert p[o + 5] == b[5] && p[o + 6] == b[6] && p[o + 7] == b[7] && p[o + 8] == b[8] && p[o + 9] == b[9];
    assert p[o + 10] == b[10] && p[o + 11] == b[11] && p[o + 12] == b[12] && p[o + 13] == b[13];
  }

  /** The labels a block's own menu jumps to. */
  lemma MenuTargets(p: seq<Ins>, o: nat, l: string, plan: Plan)
    requires Placed(p, o, BlockOf(l, plan))
    ensures FindLabel(p, l) == At(o) && FindLabel(p, l + "_shell") == At(o + 10) && FindLabel(p, l + "_boot") == At(o + 14)
  {
    hide BlockOf, Arm, FindLabel;
    HeadLines(l, plan);
    var b := BlockOf(l, plan);
    assert NamesIn(b, l) by { assert b[13] in b && l in Named(b[13]); }
    assert NamesIn(b, l + "_shell") by { assert b[5] in b && l + "_shell" in Named(b[5]); }
    assert NamesIn(b, l + "_boot") by { assert b[3] in b && l + "_boot" in Named(b[3]); }
  }

  function MenuOf(l: string): seq<string> { [l + "_boot", "menu_netbootxyz", l + "_shell"] }

  lemma RunToMenu(p: seq<Ins>, cl: Client, o: nat, l: string, plan: Plan, s: State)
    requires Stands(p, o, BlockOf(l, plan)) && s.Running? && s.pc == o
    ensures Reaches(p, cl, s, s.(pc := o + 7, menu := MenuOf(l)))
  {
    hide BlockOf, FindLabel, Stands, Reaches;
    MenuLines(p, o, l, plan);
    var s3 := s.(pc := o + 3, menu := []);
    var s4 := s.(pc := o + 4, menu := [l + "_boot"]);
    var s5 := s.(pc := o + 5, menu := [l + "_boot", "menu_netbootxyz"]);
    var s6 := s.(pc := o + 6, menu := MenuOf(l));
    assert [] + [l + "_boot"] == s4.menu && s4.menu + ["menu_netbootxyz"] == s5.menu && s5.menu + [l + "_shell"] == s6.menu;
    Trace(p, cl, [s, s.(pc := o + 1), s.(pc := o + 2), s3]);
    Trace(p, cl, [s3, s4, s5, s6, s6.(pc := o + 7)]);
    ReachesTrans(p, cl, s, s3, s6.(pc := o + 7));
  }

  /** The variable the menu choice is kept in, before and after the choice. */
  ghost predicate Holds(vars: map<string, string>, l: string, sel: Selected) {
    var v := l + "_menu_choice";
    match sel
    case Nothing => v !in vars
    case BootTarget => v in vars && vars[v] == l + "_boot"
    case NetbootMenu => v in vars && vars[v] == "menu_netbootxyz"
    case IpxeShell => v in vars && vars[v] == l + "_shell"
  }

  lemma RunChoose(p: seq<Ins>, cl: Client, o: nat, l: string, plan: Plan, s: State, last: Selected) returns (t: State)
    requires Stands(p, o, BlockOf(l, plan)) && s.Running? && s.pc == o + 7 && s.menu == MenuOf(l)
    requires Holds(s.vars, l, last)
    ensures Reaches(p, cl, s, t) && t.Running? && t.pc == o + 9 && Holds(t.vars, l, Selection(s.choices, last))
    ensures t.choices == if s.choices == [] then [] else s.choices[1..]
    ensures t.vars.Keys <= s.vars.Keys + {l + "_menu_choice"}
    ensures forall v | v in s.vars && v != l + "_menu_choice" :: v in t.vars && t.vars[v] == s.vars[v]
  {
    hide BlockOf, FindLabel, Stands, Reaches, Holds, Selection, MenuOf, Step;
    MenuLines(p, o, l, plan);
    var s1 := ChooseStep(p, cl, l, s, last);
    t := s1.(pc := o + 9);
    Trace(p, cl, [s, s1]);
    RunQuiets(p, cl, s1, 1);
    ReachesTrans(p, cl, s, s1, t);
  }

  lemma ChooseStep(p: seq<Ins>, cl: Client, l: string, s: State, last: Selected) returns (t: State)
    requires s.Running? && s.pc < |p| && p[s.pc] == Choose(l + "_boot", l + "_menu_choice") && s.menu == MenuOf(l)
    requires Holds(s.vars, l, last)
    ensures t == Step(p, cl, s) && t.Running? && t.pc == s.pc + 1 && Holds(t.vars, l, Selection(s.choices, last))
    ensures t.choices == if s.choices == [] then [] else s.choices[1..]
    ensures t.vars.Keys <= s.vars.Keys + {l + "_menu_choice"}
    ensures forall v | v in s.vars && v != l + "_menu_choice" :: v in t.vars && t.vars[v] == s.vars[v]
  {
    t := Step(p, cl, s);
  }

  /** From a machine's label to the end of the run, whatever is answered at its menu. */
  lemma {:induction false} RunArm(p: seq<Ins>, cl: Client, o: nat, f: nat, l: string, plan: Plan, s: State, last: Selected)
    requires Placed(p, o, BlockOf(l, plan)) && FooterPlaced(p, f) && s.Running? && s.pc == o
    requires (last.Nothing? || last.IpxeShell?) && Holds(s.vars, l, last)
    ensures Reaches(p, cl, s, Halted(ArmOutcome(plan, cl, s.choices, last)))
    decreases |s.choices|
  {
    hide BlockOf, FindLabel, Stands, PlanOutcome, NetbootOutcome, Step, FooterPlaced, Holds, Selection, MenuOf, Reaches;
    RunToMenu(p, cl, o, l, plan, s);
    var m := s.(pc := o + 7, menu := MenuOf(l));
    var t := RunChoose(p, cl, o, l, plan, m, last);
    ReachesTrans(p, cl, s, m, t);
    var sel := Selection(s.choices, last);
    assert FindLabel(p, "menu_netbootxyz") == At(f + 3) by { MenuLabel(p, f); }
    var u := RunGotoChoice(p, cl, o, f, l, plan, t, sel);
    ReachesTrans(p, cl, s, t, u);
    var end := Halted(ArmOutcome(plan, cl, s.choices, last));
    match sel
    case Nothing =>
    case BootTarget => { RunBoot(p, cl, o, f, l, plan, u); ReachesTrans(p, cl, s, u, end); }
    case NetbootMenu => { RunNetboot(p, cl, f, u); ReachesTrans(p, cl, s, u, end); }
    case IpxeShell => {
      ShellNeedsAChoice(s.choices, last);
      if s.choices != [] {
        RunArm(p, cl, o, f, l, plan, u, IpxeShell);
        ReachesTrans(p, cl, s, u, end);
      }
    }
  }

  lemma MenuLabel(p: seq<Ins>, f: nat)
    requires FooterPlaced(p, f)
    ensures FindLabel(p, "menu_netbootxyz") == At(f + 3)
  {
  }

  lemma ShellNeedsAChoice(choices: seq<Choice>, last: Selected)
    ensures Selection(choices, last).IpxeShell? ==> choices != []
  {
  }

  /** The goto after the menu; a visit to the shell comes back to the menu. */
  lemma RunGotoChoice(p: seq<Ins>, cl: Client, o: nat, f: nat, l: string, plan: Plan, t: State, sel: Selected) returns (u: State)
    requires Placed(p, o, BlockOf(l, plan)) && FindLabel(p, "menu_netbootxyz") == At(f + 3)
    requires t.Running? && t.pc == o + 9 && Holds(t.vars, l, sel)
    ensures Reaches(p, cl, t, u)
    ensures match sel
      case Nothing => u == Halted(Stopped)
      case BootTarget => u == t.(pc := o + 14)
      case NetbootMenu => u == t.(pc := f + 3)
      case IpxeShell => u == t.(pc := o)
  {
    hide BlockOf, FindLabel, Stands, Reaches;
    MenuLines(p, o, l, plan);
    MenuTargets(p, o, l, plan);
    hide Step;
    match sel
    case Nothing => { u := Halted(Stopped); RunGotoUnset(p, cl, t, l + "_menu_choice"); }
    case BootTarget => u := RunGotoVar(p, cl, t, l + "_menu_choice", o + 14);
    case NetbootMenu => u := RunGotoVar(p, cl, t, l + "_menu_choice", f + 3);
    case IpxeShell => {
      var v := RunGotoVar(p, cl, t, l + "_menu_choice", o + 10);
      u := t.(pc := o);
      RunShell(p, cl, o, l, plan, v);
      ReachesTrans(p, cl, t, v, u);
    }
  }

  lemma RunGotoVar(p: seq<Ins>, cl: Client, t: State, v: string, q: nat) returns (u: State)
    requires t.Running? && t.pc < |p| && p[t.pc] == GotoVar(v) && v in t.vars && FindLabel(p, t.vars[v]) == At(q)
    ensures u == t.(pc := q) && Reaches(p, cl, t, u)
  {
    hide FindLabel, Reaches;
    u := t.(pc := q);
    Trace(p, cl, [t, u]);
  }

  lemma RunGotoUnset(p: seq<Ins>, cl: Client, t: State, v: string)
    requires t.Running? && t.pc < |p| && p[t.pc] == GotoVar(v) && v !in t.vars
    ensures Reaches(p, cl, t, Halted(Stopped))
  {
    hide FindLabel, Reaches;
    Trace(p, cl, [t, Halted(Stopped)]);
  }

  lemma RunShell(p: seq<Ins>, cl: Client, o: nat, l: string, plan: Plan, s: State)
    requires Placed(p, o, BlockOf(l, plan)) && s.Running? && s.pc == o + 10
    ensures Reaches(p, cl, s, s.(pc := o))
  {
    hide BlockOf, FindLabel, Stands, Reaches;
    MenuLines(p, o, l, plan);
    MenuTargets(p, o, l, plan);
    Trace(p, cl, [s, s.(pc := o + 11), s.(pc := o + 12), s.(pc := o + 13), s.(pc := o)]);
  }

  /** One machine's five lines of the table. */
  lemma RunRow(p: seq<Ins>, cl: Client, m: Machine, s: State)
    requires s.Running? && s.pc + 5 <= |p| && forall k | 0 <= k < 5 :: p[s.pc + k] == Row(m)[k]
    ensures if Matches(cl, m) then Reaches(p, cl, s, Jump(p, s, LabelOf(m))) else Reaches(p, cl, s, s.(pc := s.pc + 5))
  {
    hide LabelOf, FindLabel, Reaches, Jump;
    assert p[s.pc + 0] == Row(m)[0] && p[s.pc + 1] == Row(m)[1] && p[s.pc + 2] == Row(m)[2] && p[s.pc + 3] == Row(m)[3] && p[s.pc + 4] == Row(m)[4];
    var t := s.(pc := s.pc + 1);
    RunQuiets(p, cl, s, 1);
    RunNics(p, cl, Mac.Hyphenated(m.mac), LabelOf(m), 0, t);
    JumpFrom(p, s, t, LabelOf(m));
    ReachesTrans(p, cl, s, t, if Matches(cl, m) then Jump(p, s, LabelOf(m)) else s.(pc := s.pc + 5));
  }

  lemma JumpFrom(p: seq<Ins>, s: State, t: State, l: string)
    requires s.Running? && t.Running? && t == s.(pc := t.pc)
    ensures Jump(p, s, l) == Jump(p, t, l)
  {
  }

  /** The comparison lines of a row from NIC n on. */
  lemma {:induction false} RunNics(p: seq<Ins>, cl: Client, h: string, l: string, n: nat, s: State)
    requires n <= 4 && s.Running? && s.pc + 4 - n <= |p|
    requires forall k | n <= k < 4 :: p[s.pc + k - n] == IseqMac(k, h, l)
    ensures Reaches(p, cl, s, if exists k | n <= k < 4 :: HasNic(cl, k, h) then Jump(p, s, l) else s.(pc := s.pc + 4 - n))
    decreases 4 - n
  {
    hide FindLabel, Reaches, Jump;
    if n == 4 {
      RunQuiets(p, cl, s, 0);
    } else {
      assert p[s.pc + n - n] == IseqMac(n, h, l);
      if HasNic(cl, n, h) {
        Trace(p, cl, [s, Jump(p, s, l)]);
      } else {
        var t := s.(pc := s.pc + 1);
        forall k | n + 1 <= k < 4 ensures p[t.pc + k - (n + 1)] == IseqMac(k, h, l) {
          assert p[s.pc + k - n] == IseqMac(k, h, l);
        }
        RunNics(p, cl, h, l, n + 1, t);
        JumpFrom(p, s, t, l);
        Trace(p, cl, [s, t]);
        ReachesTrans(p, cl, s, t, if exists k | n <= k < 4 :: HasNic(cl, k, h) then Jump(p, s, l) else s.(pc := s.pc + 4 - n));
      }
    }
  }

  /** The table from row j on, when no earlier row matched: the first matching row jumps. */
  lemma {:induction false} RunTable(p: seq<Ins>, cl: Client, ms: seq<Machine>, o: nat, j: nat, s: State)
    requires s.Running? && j <= |ms| && s.pc == o + 5 * j && o + 5 * |ms| <= |p|
    requires forall i, k | 0 <= i < |ms| && 0 <= k < 5 :: p[o + 5 * i + k] == Row(ms[i])[k]
    requires forall i | 0 <= i < j :: !Matches(cl, ms[i])
    ensures match FirstMatch(ms, cl)
      case At(q) => Reaches(p, cl, s, Jump(p, s, LabelOf(ms[q])))
      case NotFound => Reaches(p, cl, s, s.(pc := o + 5 * |ms|))
    decreases |ms| - j
  {
    hide LabelOf, FindLabel, Row, Matches;
    if j == |ms| {
      assert Steps(p, cl, s, 0) == s;
    } else {
      forall k | 0 <= k < 5 ensures p[s.pc + k] == Row(ms[j])[k] { assert p[o + 5 * j + k] == Row(ms[j])[k]; }
      RunRow(p, cl, ms[j], s);
      if !Matches(cl, ms[j]) {
        var t := s.(pc := o + 5 * (j + 1));
        RunTable(p, cl, ms, o, j + 1, t);
        match FirstMatch(ms, cl)
        case At(q) => ReachesTrans(p, cl, s, t, Jump(p, s, LabelOf(ms[q])));
        case NotFound => ReachesTrans(p, cl, s, t, s.(pc := o + 5 * |ms|));
      }
    }
  }

  lemma {:induction false} RunQuiets(p: seq<Ins>, cl: Client, s: State, n: nat)
    requires s.Running? && s.pc + n <= |p| && forall k | s.pc <= k < s.pc + n :: p[k].Quiet?
    ensures Reaches(p, cl, s, s.(pc := s.pc + n))
    decreases n
  {
    if n == 0 {
      assert Steps(p, cl, s, 0) == s;
    } else {
      RunQuiets(p, cl, s.(pc := s.pc + 1), n - 1);
      ReachesStep(p, cl, s, s.(pc := s.pc + n));
    }
  }

  lemma BeforeLines(ctx: Context)
    ensures var b := Before(ctx);
      && |b| >= 14 && b[0].Quiet? && b[1] == IseqArch("arm64", "arch_refuse") && b[2] == IseqArch("arm32", "arch_refuse")
      && b[3] == Goto("arch_ok") && b[4] == Label("arch_refuse") && b[5].Quiet? && b[6] == Reboot
      && b[7] == Label("arch_ok") && b[8].Quiet? && b[9] == DhcpOr("top_fail_dhcp")
      && forall k | 10 <= k < |b| :: b[k].Quiet?
  {
    hide Gate, Netmask;
    GateLines();
    var g, n := Gate(), Netmask(ctx) + [Quiet("stage 3")];
    QuietNetmask(ctx);
    assert Before(ctx) == g + n;
    assert forall k | 0 <= k < 11 :: Before(ctx)[k] == g[k];
    assert forall k | 11 <= k < |Before(ctx)| :: Before(ctx)[k] == n[k - 11];
  }

  lemma GateLines()
    ensures var b := Gate();
      && |b| == 11 && b[0].Quiet? && b[1] == IseqArch("arm64", "arch_refuse") && b[2] == IseqArch("arm32", "arch_refuse")
      && b[3] == Goto("arch_ok") && b[4] == Label("arch_refuse") && b[5].Quiet? && b[6] == Reboot
      && b[7] == Label("arch_ok") && b[8].Quiet? && b[9] == DhcpOr("top_fail_dhcp") && b[10].Quiet?
  {
  }

  lemma QuietNetmask(ctx: Context)
    ensures var n := Netmask(ctx) + [Quiet("stage 3")]; |n| >= 3 && forall k | 0 <= k < |n| :: n[k].Quiet?
  {
  }

  lemma ArchLabels(ctx: Context, p: seq<Ins>, rest: seq<Ins>)
    requires p == Before(ctx) + rest
    ensures FindLabel(p, "arch_refuse") == At(4) && FindLabel(p, "arch_ok") == At(7)
  {
    hide FindLabel, Before;
    BeforeLines(ctx);
    assert "arch_refuse" != "arch_ok" by { assert |"arch_refuse"| == 11 && |"arch_ok"| == 7; }
    NoLabels([]);
    assert p == [] + Before(ctx) + rest;
    FindIn(p, [], Before(ctx), rest, 4, "arch_refuse");
    FindIn(p, [], Before(ctx), rest, 7, "arch_ok");
  }

  /** The arch gate and DHCP. */
  lemma RunBefore(ctx: Context, p: seq<Ins>, rest: seq<Ins>, cl: Client, f: nat, s: State)
    requires p == Before(ctx) + rest && FooterPlaced(p, f) && s.Running? && s.pc == 0
    ensures if cl.buildarch == "arm64" || cl.buildarch == "arm32" || !cl.dhcpWorks
      then Reaches(p, cl, s, Halted(Rebooted))
      else Reaches(p, cl, s, s.(pc := |Before(ctx)|))
  {
    hide FindLabel, Before, Footer, FooterPlaced, Reaches;
    BeforeLines(ctx);
    ArchLabels(ctx, p, rest);
    assert forall k | 0 <= k < |Before(ctx)| :: p[k] == Before(ctx)[k];
    var s1, s2, s3, s4 := s.(pc := 1), s.(pc := 2), s.(pc := 3), s.(pc := 4);
    if cl.buildarch == "arm64" {
      Trace(p, cl, [s, s1, s4]);
      RunStop(p, cl, s4);
      ReachesTrans(p, cl, s, s4, Halted(Rebooted));
    } else if cl.buildarch == "arm32" {
      Trace(p, cl, [s, s1, s2, s4]);
      RunStop(p, cl, s4);
      ReachesTrans(p, cl, s, s4, Halted(Rebooted));
    } else {
      var s9 := s.(pc := 9);
      Trace(p, cl, [s, s1, s2, s3, s.(pc := 7), s.(pc := 8), s9]);
      RunDhcp(ctx, p, rest, cl, f, s9);
      if cl.dhcpWorks {
        ReachesTrans(p, cl, s, s9, s.(pc := |Before(ctx)|));
      } else {
        ReachesTrans(p, cl, s, s9, Halted(Rebooted));
      }
    }
  }

  lemma DhcpFails(p: seq<Ins>, cl: Client, f: nat, s: State)
    requires FooterPlaced(p, f) && s.Running? && s.pc < |p| && p[s.pc] == DhcpOr("top_fail_dhcp") && !cl.dhcpWorks
    ensures Reaches(p, cl, s, Halted(Rebooted))
  {
    hide FindLabel, Footer, Reaches;
    FooterLines();
    assert p[f + 6] == Footer()[6] && p[f + 7] == Footer()[7] && p[f + 8] == Footer()[8];
    RunStop(p, cl, s.(pc := f + 6));
    ReachesStep(p, cl, s, Halted(Rebooted));
  }

  lemma RunDhcp(ctx: Context, p: seq<Ins>, rest: seq<Ins>, cl: Client, f: nat, s: State)
    requires p == Before(ctx) + rest && FooterPlaced(p, f) && s.Running? && s.pc == 9
    ensures if cl.dhcpWorks then Reaches(p, cl, s, s.(pc := |Before(ctx)|)) else Reaches(p, cl, s, Halted(Rebooted))
  {
    hide FindLabel, Before, Footer, FooterPlaced, Reaches;
    BeforeLines(ctx);
    assert forall k | 0 <= k < |Before(ctx)| :: p[k] == Before(ctx)[k];
    if cl.dhcpWorks {
      RunQuiets(p, cl, s.(pc := 10), |Before(ctx)| - 10);
      ReachesStep(p, cl, s, s.(pc := |Before(ctx)|));
    } else {
      DhcpFails(p, cl, f, s);
    }
  }

  /** The table of the script, and the jump to the default arm after it. */
  lemma TablePlaced(ctx: Context, ms: seq<Machine>, rescue: string -> bool)
    ensures var p, o := Script(ctx, ms, rescue), |Before(ctx)|;
      && o + 5 * |ms| + 2 <= |p|
      && (forall i, k | 0 <= i < |ms| && 0 <= k < 5 :: p[o + 5 * i + k] == Row(ms[i])[k])
      && p[o + 5 * |ms|].Quiet? && p[o + 5 * |ms| + 1] == Goto("target_default")
      && p == Before(ctx) + p[o..]
  {
    hide Before, Table, Row, Blocks, Footer;
    TableLines(ms);
    var p, o := Script(ctx, ms, rescue), |Before(ctx)|;
    var rest := Blocks(ctx, ms, rescue) + Footer();
    assert p == Before(ctx) + (Table(ms) + (NoMatch() + rest));
    forall i, k | 0 <= i < |ms| && 0 <= k < 5 ensures p[o + 5 * i + k] == Row(ms[i])[k] {
      assert p[o + (5 * i + k)] == Table(ms)[5 * i + k];
    }
    assert p[o + 5 * |ms|] == NoMatch()[0] && p[o + 5 * |ms| + 1] == NoMatch()[1];
  }

  /** From the start to the table's verdict: the block of the first matching machine, as far as its
      label says, or the default arm. */
  lemma RunToBlock(ctx: Context, ms: seq<Machine>, rescue: string -> bool, cl: Client, choices: seq<Choice>)
    ensures var p, s := Script(ctx, ms, rescue), Start(choices);
      if cl.buildarch == "arm64" || cl.buildarch == "arm32" || !cl.dhcpWorks then Reaches(p, cl, s, Halted(Rebooted))
      else match FirstMatch(ms, cl)
        case At(q) => Reaches(p, cl, s, Jump(p, s, LabelOf(ms[q])))
        case NotFound => Reaches(p, cl, s, Halted(NetbootOutcome(cl)))
  {
    hide Before, Script, Row, LabelOf, Matches, FindLabel, FirstMatch, NetbootOutcome, Reaches;
    var p, s := Script(ctx, ms, rescue), Start(choices);
    FooterIsPlaced(ctx, ms, rescue);
    TablePlaced(ctx, ms, rescue);
    var o, f := |Before(ctx)|, |p| - 12;
    RunBefore(ctx, p, p[o..], cl, f, s);
    if !(cl.buildarch == "arm64" || cl.buildarch == "arm32" || !cl.dhcpWorks) {
      var t := s.(pc := o);
      RunTable(p, cl, ms, o, 0, t);
      match FirstMatch(ms, cl)
      case At(q) => ReachesTrans(p, cl, s, t, Jump(p, s, LabelOf(ms[q])));
      case NotFound => {
        var u := s.(pc := o + 5 * |ms|);
        RunNoMatch(p, cl, f, u);
        ReachesTrans(p, cl, s, t, u);
        ReachesTrans(p, cl, s, u, Halted(NetbootOutcome(cl)));
      }
    }
  }

  lemma RunNoMatch(p: seq<Ins>, cl: Client, f: nat, s: State)
    requires FooterPlaced(p, f) && s.Running? && s.pc + 2 <= |p|
    requires p[s.pc].Quiet? && p[s.pc + 1] == Goto("target_default")
    ensures Reaches(p, cl, s, Halted(NetbootOutcome(cl)))
  {
    hide FindLabel, NetbootOutcome;
    Trace(p, cl, [s, s.(pc := s.pc + 1), s.(pc := f)]);
    RunDefault(p, cl, f, s.(pc := f));
    ReachesTrans(p, cl, s, s.(pc := f), Halted(NetbootOutcome(cl)));
  }

  lemma RunBlock(ctx: Context, ms: seq<Machine>, rescue: string -> bool, cl: Client, choices: seq<Choice>, j: nat, s: State)
    requires j < |ms| && s == Running(BlockStart(ctx, ms, rescue, j), map[], [], [], choices)
    requires ClearAbove(ctx, ms, rescue, j)
    ensures Reaches(Script(ctx, ms, rescue), cl, s,
                    Halted(ArmOutcome(PlanOf(ctx, ms[j], rescue(ms[j].mac)), cl, choices, Nothing)))
  {
    hide BlockOf, PlanOf, LabelOf, Script, BlockStart, ArmOutcome, Labels, NamesIn, Placed, FooterPlaced;
    var p, o := Script(ctx, ms, rescue), BlockStart(ctx, ms, rescue, j);
    BlockIsPlaced(ctx, ms, rescue, j);
    FooterIsPlaced(ctx, ms, rescue);
    RunArm(p, cl, o, |p| - 12, LabelOf(ms[j]), PlanOf(ctx, ms[j], rescue(ms[j].mac)), s, Nothing);
  }

  /** Compiler correctness. For every fleet whose labels do not shadow each other, every client and
      everything that may be answered at the menus, the rendered script terminates, and its outcome
      is that of the plain lookup: the arm of the first machine, in MAC order, that one of the
      client's first four NICs carries, or the netboot.xyz chain when there is none. */
  lemma ScriptMeansLookup(ctx: Context, ms: seq<Machine>, rescue: string -> bool, cl: Client, choices: seq<Choice>)
    requires Unshadowed(ctx, ms, rescue)
    ensures Reaches(Script(ctx, ms, rescue), cl, Start(choices), Halted(Meaning(ctx, ms, rescue, cl, choices)))
  {
    hide Script, Block, PlanOf, LabelOf, Labels, NamesIn, Matches, FirstMatch, FindLabel, NetbootOutcome, ArmOutcome, BlockStart, Reaches;
    RunToBlock(ctx, ms, rescue, cl, choices);
    if cl.buildarch != "arm64" && cl.buildarch != "arm32" && cl.dhcpWorks && FirstMatch(ms, cl).At? {
      var p, j := Script(ctx, ms, rescue), FirstMatch(ms, cl).index;
      EntryIsUnshadowed(ctx, ms, rescue, j);
      var t := Start(choices).(pc := BlockStart(ctx, ms, rescue, j));
      RunBlock(ctx, ms, rescue, cl, choices, j, t);
      ReachesTrans(p, cl, Start(choices), t, Halted(Meaning(ctx, ms, rescue, cl, choices)));
    }
  }

  lemma EntryIsUnshadowed(ctx: Context, ms: seq<Machine>, rescue: string -> bool, j: nat)
    requires j < |ms|
    requires ClearAbove(ctx, ms, rescue, j)
    ensures FindLabel(Script(ctx, ms, rescue), LabelOf(ms[j])) == At(BlockStart(ctx, ms, rescue, j))
  {
    hide BlockOf, PlanOf, LabelOf, Script, BlockStart, FindLabel, Labels;
    var b, l := Block(ctx, ms[j], rescue(ms[j].mac)), LabelOf(ms[j]);
    HeadLines(l, PlanOf(ctx, ms[j], rescue(ms[j].mac)));
    assert NamesIn(b, l) by { assert b[13] in b && l in Named(b[13]); }
    EntryLabel(ctx, ms, rescue, j);
  }
}
