/** The control flow of the dispatch script, line by line. */
module DispatchFlow {
  import opened FleetTypes
  import opened Ipxe
  import opened Dispatch
  import opened DispatchMeaning
  import opened DispatchLayout
  import opened DispatchCorrect
  import Mac

  /** Every label line x names is defined, and further down, unless x is the goto after `shell`; and
      a goto through a menu choice goes down whatever was chosen. */
  ghost predicate GoesForward(p: seq<Ins>, x: nat)
    requires x < |p|
  {
    && (forall l | l in Named(p[x]) ::
          FindLabel(p, l).At? && (FindLabel(p, l).index > x || (x > 0 && p[x - 1] == Shell)))
    && (p[x].GotoVar? ==> exists m: nat :: MenuAbove(p, m, x))
  }

  /** The menu opened on line m is the one whose choice line x jumps by: no other menu and no label
      lies between, one line there keeps the choice in x's variable, and every label that can be
      chosen is defined further down than x. */
  ghost predicate MenuAbove(p: seq<Ins>, m: nat, x: nat)
    requires x < |p| && p[x].GotoVar?
  {
    && m < x && p[m] == Menu
    && (forall y | m < y < x :: p[y] != Menu && !p[y].Label?)
    && (exists y | m < y < x :: p[y].Choose? && p[y].variable == p[x].variable)
    && (forall y, l | m < y < x && l in Named(p[y]) :: FindLabel(p, l).At? && FindLabel(p, l).index > x)
  }

  /** Within a block, each named label is one of the two fixed ones or is defined below. */
  lemma BlockJumps(l: string, plan: Plan, k: nat, x: string) returns (d: nat)
    requires k < |BlockOf(l, plan)| && x in Named(BlockOf(l, plan)[k])
    ensures x == "menu_netbootxyz" || x == "target_default" ||
      (d < |BlockOf(l, plan)| && BlockOf(l, plan)[d] == Label(x) && (d > k || (k > 0 && BlockOf(l, plan)[k - 1] == Shell)))
  {
    hide BlockOf, Arm;
    HeadLines(l, plan);
    if k < 18 {
      d := HeadJumps(l, plan, k, x);
    } else {
      match plan
      case KernelPlan(kernel, initrd) => d := KernelJumps(l, kernel, initrd, k, x);
      case ChainPlan(url) => {
        ChainBlockLines(l, url);
        d := 22;
      }
      case UnknownPlan => {
        UnknownBlockLine(l);
        d := 0;
      }
    }
  }

  lemma KernelJumps(l: string, kernel: Kernel, initrd: string, k: nat, x: string) returns (d: nat)
    requires var b := BlockOf(l, KernelPlan(kernel, initrd)); 18 <= k < |b| && x in Named(b[k])
    ensures k < d < |BlockOf(l, KernelPlan(kernel, initrd))| && BlockOf(l, KernelPlan(kernel, initrd))[d] == Label(x)
  {
    hide BlockOf;
    KernelBlockLines(l, kernel, initrd);
    assert k in {18, 20, 22};
    d := if k == 18 then 26 else if k == 20 then 29 else 32;
  }

  lemma HeadJumps(l: string, plan: Plan, k: nat, x: string) returns (d: nat)
    requires k < 18 <= |BlockOf(l, plan)| && x in Named(BlockOf(l, plan)[k])
    ensures x == "menu_netbootxyz" ||
      (d < 18 && BlockOf(l, plan)[d] == Label(x) && (d > k || (k > 0 && BlockOf(l, plan)[k - 1] == Shell)))
  {
    hide BlockOf, Arm;
    HeadLines(l, plan);
    assert k in {3, 4, 5, 7, 13};
    d := if k == 13 then 0 else if k == 5 then 10 else 14;
  }

  /** No block falls through into the next: its last line reboots or jumps. */
  lemma BlocksEnd(l: string, plan: Plan)
    ensures var b := BlockOf(l, plan); b != [] && (b[|b| - 1] == Reboot || b[|b| - 1].Goto?)
  {
    hide BlockOf;
    match plan
    case KernelPlan(k, initrd) => KernelBlockLines(l, k, initrd);
    case ChainPlan(url) => ChainBlockLines(l, url);
    case UnknownPlan => UnknownBlockLine(l);
  }

  lemma FooterTargets(p: seq<Ins>, f: nat)
    requires FooterPlaced(p, f)
    ensures FindLabel(p, "target_default") == At(f) && FindLabel(p, "top_fail_dhcp") == At(f + 6)
  {
  }

  /** The machine block a line of the block section is in. */
  lemma {:induction false} WhichBlock(ctx: Context, ms: seq<Machine>, rescue: string -> bool, x: nat) returns (j: nat, k: nat)
    requires x < |Blocks(ctx, ms, rescue)|
    ensures j < |ms| && k < |Block(ctx, ms[j], rescue(ms[j].mac))| && x == |Blocks(ctx, ms[..j], rescue)| + k
    decreases |ms|
  {
    hide Block;
    var last := |ms| - 1;
    if x < |Blocks(ctx, ms[..last], rescue)| {
      j, k := WhichBlock(ctx, ms[..last], rescue, x);
      assert ms[..last][..j] == ms[..j];
    } else {
      j, k := last, x - |Blocks(ctx, ms[..last], rescue)|;
    }
  }

  lemma BlockGoesForward(ctx: Context, ms: seq<Machine>, rescue: string -> bool, j: nat, k: nat)
    requires Unshadowed(ctx, ms, rescue) && j < |ms| && k < |Block(ctx, ms[j], rescue(ms[j].mac))|
    ensures var p, x := Script(ctx, ms, rescue), BlockStart(ctx, ms, rescue, j) + k;
      x < |p| - 12 && GoesForward(p, x)
  {
    hide BlockOf, LabelOf, PlanOf, Script, BlockStart, FindLabel, Footer, Labels;
    var p, o, b := Script(ctx, ms, rescue), BlockStart(ctx, ms, rescue, j), Block(ctx, ms[j], rescue(ms[j].mac));
    BlockIsPlaced(ctx, ms, rescue, j);
    FooterIsPlaced(ctx, ms, rescue);
    BlocksBeforeFooter(ctx, ms, rescue, j);
    assert p[o + k] == b[k];
    if b[k].GotoVar? { MenuIsAbove(p, o, LabelOf(ms[j]), PlanOf(ctx, ms[j], rescue(ms[j].mac)), k); }
    forall l | l in Named(p[o + k])
      ensures FindLabel(p, l).At? && (FindLabel(p, l).index > o + k || (o + k > 0 && p[o + k - 1] == Shell))
    {
      var d := BlockJumps(LabelOf(ms[j]), PlanOf(ctx, ms[j], rescue(ms[j].mac)), k, l);
      if l != "menu_netbootxyz" && l != "target_default" {
        assert NamesIn(b, l) by { assert b[k] in b; }
        assert FindLabel(p, b[d].name) == At(o + d);
        if k > 0 { assert p[o + (k - 1)] == b[k - 1]; }
      }
    }
  }

  lemma OnlyMenuGoto(l: string, plan: Plan, k: nat)
    requires k < |BlockOf(l, plan)| && BlockOf(l, plan)[k].GotoVar?
    ensures k == 9
  {
    hide BlockOf, Arm;
    if k < 18 {
      HeadLines(l, plan);
    } else {
      match plan
      case KernelPlan(kernel, initrd) => KernelBlockLines(l, kernel, initrd);
      case ChainPlan(url) => ChainBlockLines(l, url);
      case UnknownPlan => UnknownBlockLine(l);
    }
  }

  lemma MenuIsAbove(p: seq<Ins>, o: nat, l: string, plan: Plan, k: nat)
    requires Placed(p, o, BlockOf(l, plan)) && k < |BlockOf(l, plan)| && BlockOf(l, plan)[k].GotoVar?
    requires FindLabel(p, "menu_netbootxyz").At? && FindLabel(p, "menu_netbootxyz").index > o + k
    ensures o + k < |p| && p[o + k].GotoVar? && MenuAbove(p, o + 2, o + k)
  {
    hide BlockOf, FindLabel, Stands;
    OnlyMenuGoto(l, plan, k);
    MenuTargets(p, o, l, plan);
    MenuEnds(p, o, l, plan);
    hide Placed;
    forall y | o + 2 < y < o + 9
      ensures p[y] != Menu && !p[y].Label? && Named(p[y]) <= {l + "_boot", "menu_netbootxyz", l + "_shell"}
    {
      MenuNames(p, o, l, plan, y);
    }
    assert p[o + 7].Choose? && p[o + 7].variable == p[o + 9].variable;
  }

  lemma MenuEnds(p: seq<Ins>, o: nat, l: string, plan: Plan)
    requires Stands(p, o, BlockOf(l, plan))
    ensures o + 18 <= |p| && p[o + 2] == Menu
    ensures p[o + 7] == Choose(l + "_boot", l + "_menu_choice") && p[o + 9] == GotoVar(l + "_menu_choice")
  {
    hide BlockOf, Stands;
    MenuLines(p, o, l, plan);
  }

  lemma MenuNames(p: seq<Ins>, o: nat, l: string, plan: Plan, y: nat)
    requires Stands(p, o, BlockOf(l, plan)) && o + 2 < y < o + 9
    ensures y < |p| && p[y] != Menu && !p[y].Label? && Named(p[y]) <= {l + "_boot", "menu_netbootxyz", l + "_shell"}
  {
    hide BlockOf, Stands;
    MenuLines(p, o, l, plan);
    assert y in {o + 3, o + 4, o + 5, o + 6, o + 7, o + 8};
  }

  lemma BlocksBeforeFooter(ctx: Context, ms: seq<Machine>, rescue: string -> bool, j: nat)
    requires j < |ms|
    ensures BlockStart(ctx, ms, rescue, j) + |Block(ctx, ms[j], rescue(ms[j].mac))| + 12 <= |Script(ctx, ms, rescue)|
  {
    hide Block, Blocks, Upto, Footer;
    var rest := BlocksSplit(ctx, ms, rescue, j);
    ScriptIs(ctx, ms, rescue);
    FooterLines();
  }

  lemma TableGoesForward(ctx: Context, ms: seq<Machine>, rescue: string -> bool, i: nat, k: nat)
    requires Unshadowed(ctx, ms, rescue) && i < |ms| && k < 5
    ensures var p, x := Script(ctx, ms, rescue), |Before(ctx)| + 5 * i + k; x < |p| && GoesForward(p, x)
  {
    hide Script, LabelOf, FindLabel, Block, Labels, Row, Before, Table, BlockStart, ClearAbove;
    TablePlaced(ctx, ms, rescue);
    EntryIsUnshadowed(ctx, ms, rescue, i);
    BlocksAfterTable(ctx, ms, rescue, i);
    assert Script(ctx, ms, rescue)[|Before(ctx)| + 5 * i + k] == Row(ms[i])[k];
    RowNames(ms[i], k);
  }

  lemma RowNames(m: Machine, k: nat)
    requires k < 5
    ensures Named(Row(m)[k]) <= {LabelOf(m)} && !Row(m)[k].GotoVar?
  {
    hide LabelOf;
  }

  lemma BlocksAfterTable(ctx: Context, ms: seq<Machine>, rescue: string -> bool, i: nat)
    requires i < |ms|
    ensures BlockStart(ctx, ms, rescue, i) >= |Before(ctx)| + 5 * |ms|
  {
    hide Before, Table, Blocks;
    TableLines(ms);
  }

  lemma FooterGoesForward(p: seq<Ins>, f: nat, x: nat)
    requires FooterPlaced(p, f) && f <= x < |p|
    ensures GoesForward(p, x)
  {
    hide FindLabel, Footer;
    FooterLines();
    assert p[f + (x - f)] == Footer()[x - f];
  }

  lemma BeforeGoesForward(ctx: Context, ms: seq<Machine>, rescue: string -> bool, x: nat)
    requires x < |Before(ctx)|
    ensures var p := Script(ctx, ms, rescue); x < |p| && GoesForward(p, x)
  {
    hide FindLabel, Script, Before, Footer, Row, FooterPlaced, Table, Blocks;
    var p := Script(ctx, ms, rescue);
    TablePlaced(ctx, ms, rescue);
    FooterIsPlaced(ctx, ms, rescue);
    FooterTargets(p, |p| - 12);
    ArchLabels(ctx, p, p[|Before(ctx)|..]);
    assert p[x] == Before(ctx)[x];
    FooterAfterTable(ctx, ms, rescue);
    BeforeNames(ctx, x);
  }

  /** The only lines before the table that name a label. */
  lemma BeforeNames(ctx: Context, x: nat)
    requires x < |Before(ctx)|
    ensures |Before(ctx)| >= 14 && !Before(ctx)[x].GotoVar?
    ensures Named(Before(ctx)[x]) ==
            if x == 9 then {"top_fail_dhcp"} else if x == 3 then {"arch_ok"} else if x == 1 || x == 2 then {"arch_refuse"} else {}
  {
    hide Before;
    BeforeLines(ctx);
  }

  lemma FooterAfterTable(ctx: Context, ms: seq<Machine>, rescue: string -> bool)
    ensures |Before(ctx)| + 5 * |ms| + 2 + |Blocks(ctx, ms, rescue)| == |Script(ctx, ms, rescue)| - 12
  {
    hide Before, Table, Blocks, Footer;
    TableLines(ms);
    FooterLines();
  }

  /** Under unshadowed labels, every goto, every alternative and every menu item names a label that
      exists, and the only backward jump is the one that follows `shell`: those through a menu choice
      go down as well. */
  lemma OnlyShellGoesBack(ctx: Context, ms: seq<Machine>, rescue: string -> bool, x: nat)
    requires Unshadowed(ctx, ms, rescue) && x < |Script(ctx, ms, rescue)|
    ensures GoesForward(Script(ctx, ms, rescue), x)
  {
    hide Script, Before, Table, Blocks, Block, GoesForward, Unshadowed, FooterPlaced, BlockStart;
    var p, o, f := Script(ctx, ms, rescue), |Before(ctx)|, |Script(ctx, ms, rescue)| - 12;
    FooterAfterTable(ctx, ms, rescue);
    FooterIsPlaced(ctx, ms, rescue);
    var t := o + 5 * |ms|;
    if x < o {
      BeforeGoesForward(ctx, ms, rescue, x);
    } else if x < t {
      TableGoesForward(ctx, ms, rescue, (x - o) / 5, (x - o) % 5);
    } else if x < t + 2 {
      NoMatchGoesForward(ctx, ms, rescue, x);
    } else if x < f {
      var j, k := WhichBlock(ctx, ms, rescue, x - t - 2);
      BlockStartIs(ctx, ms, rescue, j);
      BlockGoesForward(ctx, ms, rescue, j, k);
    } else {
      FooterGoesForward(p, f, x);
    }
  }

  lemma BlockStartIs(ctx: Context, ms: seq<Machine>, rescue: string -> bool, j: nat)
    requires j <= |ms|
    ensures BlockStart(ctx, ms, rescue, j) == |Before(ctx)| + 5 * |ms| + 2 + |Blocks(ctx, ms[..j], rescue)|
  {
    hide Before, Table, Blocks;
    TableLines(ms);
  }

  lemma NoMatchGoesForward(ctx: Context, ms: seq<Machine>, rescue: string -> bool, x: nat)
    requires |Before(ctx)| + 5 * |ms| <= x < |Before(ctx)| + 5 * |ms| + 2
    ensures x < |Script(ctx, ms, rescue)| && GoesForward(Script(ctx, ms, rescue), x)
  {
    hide Before, Script, FindLabel, Footer, Row, FooterPlaced, Table, Blocks;
    TablePlaced(ctx, ms, rescue);
    FooterIsPlaced(ctx, ms, rescue);
    FooterTargets(Script(ctx, ms, rescue), |Script(ctx, ms, rescue)| - 12);
    FooterAfterTable(ctx, ms, rescue);
  }

  /** For a fleet in MAC order, the matching machine is the one a map lookup would give, whenever the
      client carries the MAC of just one member. */
  lemma MatchIsLookup(machines: map<string, Profile>, cl: Client, mac: string, nic: nat)
    requires mac in machines && nic < 4 && nic < |cl.macs| && cl.macs[nic] == Mac.Hyphenated(mac)
    requires forall k, i | k in machines && 0 <= i < 4 && i < |cl.macs| && cl.macs[i] == Mac.Hyphenated(k) :: k == mac
    ensures var r := FirstMatch(ByMac(machines), cl);
      r.At? && ByMac(machines)[r.index] == Machine(mac, machines[mac])
  {
    hide ByMac;
    ByMacIsDetermined(machines, SomeListing(machines));
    var ms := ByMac(machines);
    assert Machine(mac, machines[mac]) in ms;
    var i :| 0 <= i < |ms| && ms[i] == Machine(mac, machines[mac]);
    assert HasNic(cl, nic, Mac.Hyphenated(ms[i].mac)) && Matches(cl, ms[i]);
    var r := FirstMatch(ms, cl);
    assert ms[r.index] in ms;
  }
}
