/** Every run of the dispatch script ends, for every fleet: shadowed labels send a jump astray, but
    only up to the block of an earlier machine. */
module DispatchEnds {
  import opened FleetTypes
  import opened Ipxe
  import opened Dispatch
  import opened DispatchMeaning
  import opened DispatchLayout
  import opened DispatchCorrect
  import DispatchShadow

  // ----- where jumps land -----

  /** Line k of block i defines x, and that is where a jump to x goes. */
  ghost predicate LandsAt(ctx: Context, ms: seq<Machine>, rescue: string -> bool, x: string, i: nat, k: nat)
  {
    && i < |ms| && k < |Block(ctx, ms[i], rescue(ms[i].mac))|
    && Block(ctx, ms[i], rescue(ms[i].mac))[k] == Label(x)
    && FindLabel(Script(ctx, ms, rescue), x) == At(BlockStart(ctx, ms, rescue, i) + k)
  }

  /** The first block that defines x. */
  lemma {:induction false} FirstDefiner(ctx: Context, ms: seq<Machine>, rescue: string -> bool, j: nat, k: nat, x: string)
    returns (i: nat, q: nat)
    requires j < |ms| && k < |Block(ctx, ms[j], rescue(ms[j].mac))| && Block(ctx, ms[j], rescue(ms[j].mac))[k] == Label(x)
    ensures i <= j && LandsAt(ctx, ms, rescue, x, i, q)
    decreases j
  {
    hide Block, Script, BlockStart, FindLabel;
    if e: nat :| e < j && x in Labels(Block(ctx, ms[e], rescue(ms[e].mac))) {
      var b := Block(ctx, ms[e], rescue(ms[e].mac));
      var d: nat :| d < |b| && b[d] == Label(x);
      i, q := FirstDefiner(ctx, ms, rescue, e, d, x);
    } else {
      i, q := j, k;
      OwnLabel(ctx, ms, rescue, j, k);
    }
  }

  /** A jump to a machine label that block j names lands in block j or an earlier one. */
  lemma Lands(ctx: Context, ms: seq<Machine>, rescue: string -> bool, j: nat, x: string) returns (i: nat, q: nat)
    requires j < |ms| && NamesIn(Block(ctx, ms[j], rescue(ms[j].mac)), x) && MachineLabel(x)
    ensures i <= j && LandsAt(ctx, ms, rescue, x, i, q)
  {
    hide BlockOf, PlanOf, LabelOf, LandsAt, NamesIn;
    var k := DispatchShadow.NamedIsDefined(LabelOf(ms[j]), PlanOf(ctx, ms[j], rescue(ms[j].mac)), x);
    i, q := FirstDefiner(ctx, ms, rescue, j, k, x);
  }

  // ----- what the menu variables may hold -----

  ghost predicate GoodFor(vars: map<string, string>, l: string) {
    exists last :: Holds(vars, l, last)
  }

  ghost predicate GoodVars(ms: seq<Machine>, vars: map<string, string>) {
    forall j | 0 <= j < |ms| :: GoodFor(vars, LabelOf(ms[j]))
  }

  lemma VariablesDiffer(l: string, x: string)
    requires l + "_menu_choice" == x + "_menu_choice"
    ensures l == x
  {
    assert (l + "_menu_choice")[..|l|] == l && (x + "_menu_choice")[..|x|] == x;
  }

  lemma ChoiceKeepsGood(ms: seq<Machine>, vars: map<string, string>, vars': map<string, string>, l: string, sel: Selected)
    requires GoodVars(ms, vars) && Holds(vars', l, sel)
    requires vars'.Keys <= vars.Keys + {l + "_menu_choice"}
    requires forall v | v in vars && v != l + "_menu_choice" :: v in vars' && vars'[v] == vars[v]
    ensures GoodVars(ms, vars')
  {
    hide LabelOf;
    forall j | 0 <= j < |ms| ensures GoodFor(vars', LabelOf(ms[j])) {
      var x := LabelOf(ms[j]);
      if x + "_menu_choice" == l + "_menu_choice" {
        VariablesDiffer(x, l);
      } else {
        var last :| Holds(vars, x, last);
        assert Holds(vars', x, last);
      }
    }
  }

  // ----- one section of a block at a time -----

  lemma RunShellGoto(p: seq<Ins>, cl: Client, o: nat, l: string, plan: Plan, s: State, q: nat)
    requires Stands(p, o, BlockOf(l, plan)) && s.Running? && s.pc == o + 10 && FindLabel(p, l) == At(q)
    ensures Reaches(p, cl, s, s.(pc := q))
  {
    hide BlockOf, FindLabel, Stands, Reaches;
    MenuLines(p, o, l, plan);
    Trace(p, cl, [s, s.(pc := o + 11), s.(pc := o + 12), s.(pc := o + 13), s.(pc := q)]);
  }

  lemma RunErrorSection(p: seq<Ins>, cl: Client, o: nat, l: string, plan: Plan, k: nat, s: State)
    requires Stands(p, o, BlockOf(l, plan)) && 18 <= k < |BlockOf(l, plan)| && BlockOf(l, plan)[k].Label?
    requires s.Running? && s.pc == o + k
    ensures Reaches(p, cl, s, Halted(Rebooted))
  {
    hide BlockOf, Reaches;
    var b := BlockOf(l, plan);
    ErrorEnds(l, plan, k);
    assert p[o + k] == b[k] && p[o + (k + 1)] == b[k + 1] && p[o + (k + 2)] == b[k + 2];
    RunStop(p, cl, s);
  }

  lemma ErrorEnds(l: string, plan: Plan, k: nat)
    requires 18 <= k < |BlockOf(l, plan)| && BlockOf(l, plan)[k].Label?
    ensures k + 2 < |BlockOf(l, plan)| && BlockOf(l, plan)[k + 1].Quiet? && BlockOf(l, plan)[k + 2] == Reboot
  {
    hide BlockOf;
    match plan
    case KernelPlan(kernel, initrd) => KernelBlockLines(l, kernel, initrd);
    case ChainPlan(url) => ChainBlockLines(l, url);
    case UnknownPlan => UnknownBlockLine(l);
  }

  /** The boot section ends the run or jumps to a label behind the block's "_fail". */
  lemma RunBootSection(p: seq<Ins>, cl: Client, o: nat, f: nat, l: string, plan: Plan, s: State) returns (t: State, x: string)
    requires Stands(p, o, BlockOf(l, plan)) && FooterPlaced(p, f) && s.Running? && s.pc == o + 14 && MachineLabel(l)
    requires forall y | NamesIn(BlockOf(l, plan), y) && MachineLabel(y) :: FindLabel(p, y).At?
    ensures Reaches(p, cl, s, t)
    ensures t.Running? ==>
              && t.vars == s.vars && t.choices == s.choices && NamesIn(BlockOf(l, plan), x) && MachineLabel(x)
              && FailLabel(l, x) && FindLabel(p, x) == At(t.pc)
  {
    hide FindLabel, BlockOf, Stands, Reaches, FooterPlaced, NamesIn;
    var u := s.(pc := o + 18, images := []);
    ToArm(p, cl, o, l, plan, s);
    match plan
    case KernelPlan(k, initrd) => {
      t, x := RunKernelSection(p, cl, o, l, k, initrd, u);
      ReachesTrans(p, cl, s, u, t);
    }
    case ChainPlan(url) => {
      t, x := RunChainSection(p, cl, o, l, url, u);
      ReachesTrans(p, cl, s, u, t);
    }
    case UnknownPlan => {
      t, x := Halted(NetbootOutcome(cl)), "";
      UnknownGoes(p, cl, o, f, l, u);
      ReachesTrans(p, cl, s, u, t);
    }
  }

  predicate FailLabel(l: string, x: string) {
    x == l + "_fail_kernel" || x == l + "_fail_initrd" || x == l + "_fail_boot" || x == l + "_fail_chain"
  }

  lemma ToArm(p: seq<Ins>, cl: Client, o: nat, l: string, plan: Plan, s: State)
    requires Stands(p, o, BlockOf(l, plan)) && s.Running? && s.pc == o + 14
    ensures Reaches(p, cl, s, s.(pc := o + 18, images := []))
  {
    hide BlockOf, Arm, FindLabel, Reaches;
    HeadLines(l, plan);
    var b := BlockOf(l, plan);
    assert p[o + 14] == b[14] && p[o + 15] == b[15] && p[o + 16] == b[16] && p[o + 17] == b[17];
    Trace(p, cl, [s, s.(pc := o + 15), s.(pc := o + 16), s.(pc := o + 17, images := []), s.(pc := o + 18, images := [])]);
  }

  lemma UnknownGoes(p: seq<Ins>, cl: Client, o: nat, f: nat, l: string, s: State)
    requires Stands(p, o, BlockOf(l, UnknownPlan)) && FooterPlaced(p, f) && s.Running? && s.pc == o + 18
    ensures Reaches(p, cl, s, Halted(NetbootOutcome(cl)))
  {
    hide FindLabel, BlockOf, Reaches, NetbootOutcome;
    UnknownBlockLine(l);
    assert p[o + 18] == BlockOf(l, UnknownPlan)[18];
    RunDefault(p, cl, f, s.(pc := f));
    ReachesStep(p, cl, s, Halted(NetbootOutcome(cl)));
  }

  lemma RunChainSection(p: seq<Ins>, cl: Client, o: nat, l: string, url: string, s: State) returns (t: State, x: string)
    requires Stands(p, o, BlockOf(l, ChainPlan(url))) && s.Running? && s.pc == o + 18 && MachineLabel(l)
    requires forall y | NamesIn(BlockOf(l, ChainPlan(url)), y) && MachineLabel(y) :: FindLabel(p, y).At?
    ensures Reaches(p, cl, s, t)
    ensures t.Running? ==>
              && t.vars == s.vars && t.choices == s.choices && NamesIn(BlockOf(l, ChainPlan(url)), x) && MachineLabel(x)
              && FailLabel(l, x) && FindLabel(p, x) == At(t.pc)
  {
    hide FindLabel, BlockOf, Reaches;
    ChainBlockLines(l, url);
    var b := BlockOf(l, ChainPlan(url));
    assert p[o + 18] == b[18];
    x := l + "_fail_chain";
    assert NamesIn(b, x) by { assert b[18] in b && x in Named(b[18]); }
    t := if url in cl.fetchable then Halted(Chained(url)) else s.(pc := FindLabel(p, x).index);
    Trace(p, cl, [s, t]);
  }

  lemma RunKernelSection(p: seq<Ins>, cl: Client, o: nat, l: string, k: Kernel, initrd: string, s: State) returns (t: State, x: string)
    requires Stands(p, o, BlockOf(l, KernelPlan(k, initrd))) && s.Running? && s.pc == o + 18 && MachineLabel(l)
    requires forall y | NamesIn(BlockOf(l, KernelPlan(k, initrd)), y) && MachineLabel(y) :: FindLabel(p, y).At?
    ensures Reaches(p, cl, s, t)
    ensures t.Running? ==>
              && t.vars == s.vars && t.choices == s.choices && NamesIn(BlockOf(l, KernelPlan(k, initrd)), x) && MachineLabel(x)
              && FailLabel(l, x) && FindLabel(p, x) == At(t.pc)
  {
    hide FindLabel, BlockOf, Reaches, Step, Stands, NamesIn;
    KernelStands(p, o, l, k, initrd);
    if k.url !in cl.fetchable {
      x := l + "_fail_kernel";
      t := s.(pc := FindLabel(p, x).index);
      FailedFetch(p, cl, s);
    } else {
      var s2 := s.(pc := o + 20, images := s.images + [KernelImage(k)]);
      Fetched(p, cl, s);
      if initrd !in cl.fetchable {
        x := l + "_fail_initrd";
        t := s2.(pc := FindLabel(p, x).index);
        FailedFetch(p, cl, s2);
      } else {
        var s4 := s2.(pc := o + 22, images := s2.images + [InitrdImage(initrd)]);
        Fetched(p, cl, s2);
        ReachesTrans(p, cl, s, s2, s4);
        x := l + "_fail_boot";
        t := if cl.bootWorks then Halted(Booted(s4.images)) else s4.(pc := FindLabel(p, x).index);
        Boots(p, cl, l, s4);
        ReachesTrans(p, cl, s, s4, t);
        return;
      }
      ReachesTrans(p, cl, s, s2, t);
    }
  }

  /** The lines of the kernel arm and the labels they name. */
  lemma KernelStands(p: seq<Ins>, o: nat, l: string, k: Kernel, initrd: string)
    requires Stands(p, o, BlockOf(l, KernelPlan(k, initrd)))
    ensures o + 23 <= |p| && p[o + 18] == FetchKernel(k, l + "_fail_kernel") && p[o + 19].Quiet?
    ensures p[o + 20] == FetchInitrd(initrd, l + "_fail_initrd") && p[o + 21].Quiet? && p[o + 22] == BootOr(l + "_fail_boot")
    ensures var b := BlockOf(l, KernelPlan(k, initrd));
      NamesIn(b, l + "_fail_kernel") && NamesIn(b, l + "_fail_initrd") && NamesIn(b, l + "_fail_boot")
  {
    hide BlockOf;
    KernelBlockLines(l, k, initrd);
    var b := BlockOf(l, KernelPlan(k, initrd));
    assert p[o + 18] == b[18] && p[o + 19] == b[19] && p[o + 20] == b[20] && p[o + 21] == b[21] && p[o + 22] == b[22];
    assert b[18] in b && l + "_fail_kernel" in Named(b[18]);
    assert b[20] in b && l + "_fail_initrd" in Named(b[20]);
    assert b[22] in b && l + "_fail_boot" in Named(b[22]);
  }

  predicate Fetches(i: Ins, cl: Client) {
    match i
    case FetchKernel(k, _) => k.url in cl.fetchable
    case FetchInitrd(url, _) => url in cl.fetchable
    case _ => false
  }

  lemma FailedFetch(p: seq<Ins>, cl: Client, s: State)
    requires s.Running? && s.pc < |p| && (p[s.pc].FetchKernel? || p[s.pc].FetchInitrd?) && !Fetches(p[s.pc], cl)
    requires FindLabel(p, p[s.pc].target).At?
    ensures Reaches(p, cl, s, s.(pc := FindLabel(p, p[s.pc].target).index))
  {
    hide FindLabel, Reaches;
    Trace(p, cl, [s, s.(pc := FindLabel(p, p[s.pc].target).index)]);
  }

  lemma Fetched(p: seq<Ins>, cl: Client, s: State)
    requires s.Running? && s.pc + 1 < |p| && p[s.pc + 1].Quiet? && Fetches(p[s.pc], cl)
    ensures var i := if p[s.pc].FetchKernel? then KernelImage(p[s.pc].kernel) else InitrdImage(p[s.pc].url);
      Reaches(p, cl, s, s.(pc := s.pc + 2, images := s.images + [i]))
  {
    hide FindLabel, Reaches;
    var i := if p[s.pc].FetchKernel? then KernelImage(p[s.pc].kernel) else InitrdImage(p[s.pc].url);
    var t := s.(pc := s.pc + 1, images := s.images + [i]);
    Trace(p, cl, [s, t, t.(pc := s.pc + 2)]);
  }

  lemma Boots(p: seq<Ins>, cl: Client, l: string, s: State)
    requires s.Running? && s.pc < |p| && p[s.pc] == BootOr(l + "_fail_boot") && s.images != []
    requires FindLabel(p, l + "_fail_boot").At?
    ensures Reaches(p, cl, s, if cl.bootWorks then Halted(Booted(s.images)) else s.(pc := FindLabel(p, l + "_fail_boot").index))
  {
    hide FindLabel, Reaches;
    Trace(p, cl, [s, if cl.bootWorks then Halted(Booted(s.images)) else s.(pc := FindLabel(p, l + "_fail_boot").index)]);
  }

  // ----- the measure: machine, answers left, section -----

  function Section(k: nat): nat {
    if k == 10 then 3 else if k == 0 then 2 else if k == 14 then 1 else 0
  }

  /** A state on a label line of block j, with menu variables that hold menu choices. */
  ghost predicate Landed(ctx: Context, ms: seq<Machine>, rescue: string -> bool, j: nat, k: nat, s: State) {
    && j < |ms| && k < |Block(ctx, ms[j], rescue(ms[j].mac))| && Block(ctx, ms[j], rescue(ms[j].mac))[k].Label?
    && s.Running? && s.pc == BlockStart(ctx, ms, rescue, j) + k && GoodVars(ms, s.vars)
  }

  /** u is on a label line of block i, reached from block j: of an earlier machine, or further down the
      measure. */
  ghost predicate Progress(ctx: Context, ms: seq<Machine>, rescue: string -> bool, j: nat, k: nat, s: State, i: nat, q: nat, u: State)
    requires s.Running?
  {
    && Landed(ctx, ms, rescue, i, q, u)
    && (i < j || (i == j && (|u.choices| < |s.choices| || (|u.choices| == |s.choices| && Section(q) < Section(k)))))
  }

  /** Either the run ends, or it makes progress. */
  lemma {:induction false} EndsFrom(ctx: Context, ms: seq<Machine>, rescue: string -> bool, cl: Client, j: nat, k: nat, s: State)
    returns (out: Outcome)
    requires Landed(ctx, ms, rescue, j, k, s)
    ensures Reaches(Script(ctx, ms, rescue), cl, s, Halted(out))
    decreases j, |s.choices|, Section(k)
  {
    hide Script, Block, BlockStart, Reaches, GoodVars, Landed, Section;
    assert s.Running? by { LandedRuns(ctx, ms, rescue, j, k, s); }
    var u, i, q := RunSection(ctx, ms, rescue, cl, j, k, s);
    if u.Halted? {
      out := u.outcome;
    } else {
      out := EndsFrom(ctx, ms, rescue, cl, i, q, u);
      ReachesTrans(Script(ctx, ms, rescue), cl, s, u, Halted(out));
    }
  }

  lemma LandedRuns(ctx: Context, ms: seq<Machine>, rescue: string -> bool, j: nat, k: nat, s: State)
    requires Landed(ctx, ms, rescue, j, k, s)
    ensures s.Running? && j < |ms|
  {
  }

  lemma RunSection(ctx: Context, ms: seq<Machine>, rescue: string -> bool, cl: Client, j: nat, k: nat, s: State)
    returns (u: State, i: nat, q: nat)
    requires s.Running? && Landed(ctx, ms, rescue, j, k, s)
    ensures Reaches(Script(ctx, ms, rescue), cl, s, u)
    ensures u.Running? ==> Progress(ctx, ms, rescue, j, k, s, i, q, u)
  {
    hide Script, BlockOf, LabelOf, PlanOf, BlockStart, Reaches, GoodVars, Progress, Stands;
    var l, plan := LabelOf(ms[j]), PlanOf(ctx, ms[j], rescue(ms[j].mac));
    BlockStands(ctx, ms, rescue, j);
    if k >= 18 {
      RunErrorSection(Script(ctx, ms, rescue), cl, BlockStart(ctx, ms, rescue, j), l, plan, k, s);
      u, i, q := Halted(Rebooted), 0, 0;
    } else {
      HeadLabels(l, plan, k);
      if k == 0 {
        u, i, q := RunMenuSection(ctx, ms, rescue, cl, j, s);
      } else if k == 10 {
        u, i, q := RunShellSection(ctx, ms, rescue, cl, j, s);
      } else {
        u, i, q := RunBootAt(ctx, ms, rescue, cl, j, s);
      }
    }
  }

  /** The lines of b that define x belong to sections below n. */
  ghost predicate OnlyInSections(b: seq<Ins>, x: string, n: nat) {
    forall d | 0 <= d < |b| && b[d] == Label(x) :: Section(d) < n
  }

  /** A jump from block j to a label it names, as progress. */
  lemma JumpProgress(ctx: Context, ms: seq<Machine>, rescue: string -> bool, j: nat, k: nat, s: State, x: string, t: State)
    returns (u: State, i: nat, q: nat)
    requires j < |ms| && s.Running? && t.Running? && GoodVars(ms, t.vars) && MachineLabel(x)
    requires NamesIn(Block(ctx, ms[j], rescue(ms[j].mac)), x)
    requires |t.choices| < |s.choices| ||
      (|t.choices| == |s.choices| && OnlyInSections(Block(ctx, ms[j], rescue(ms[j].mac)), x, Section(k)))
    ensures u.Running? && u == t.(pc := u.pc) && FindLabel(Script(ctx, ms, rescue), x) == At(u.pc)
    ensures Progress(ctx, ms, rescue, j, k, s, i, q, u)
  {
    hide Script, Block, BlockStart, GoodVars, FindLabel, NamesIn, MachineLabel, Section, Landed;
    i, q := Lands(ctx, ms, rescue, j, x);
    u := t.(pc := BlockStart(ctx, ms, rescue, i) + q);
    IsLanded(ctx, ms, rescue, i, q, x, u);
  }

  lemma RunShellSection(ctx: Context, ms: seq<Machine>, rescue: string -> bool, cl: Client, j: nat, s: State)
    returns (u: State, i: nat, q: nat)
    requires j < |ms| && s.Running? && s.pc == BlockStart(ctx, ms, rescue, j) + 10 && GoodVars(ms, s.vars)
    ensures Reaches(Script(ctx, ms, rescue), cl, s, u) && u.Running? && Progress(ctx, ms, rescue, j, 10, s, i, q, u)
  {
    hide Script, BlockOf, LabelOf, PlanOf, BlockStart, Reaches, GoodVars, Progress, Stands, FindLabel;
    var l, plan := LabelOf(ms[j]), PlanOf(ctx, ms[j], rescue(ms[j].mac));
    BlockStands(ctx, ms, rescue, j);
    HeadNames(ms[j], plan);
    OwnSection(l, plan);
    u, i, q := JumpProgress(ctx, ms, rescue, j, 10, s, l, s);
    RunShellGoto(Script(ctx, ms, rescue), cl, BlockStart(ctx, ms, rescue, j), l, plan, s, u.pc);
  }

  /** The labels that a block's menu and shell sections name. */
  lemma HeadNames(m: Machine, plan: Plan)
    ensures var l := LabelOf(m); var b := BlockOf(l, plan);
      && NamesIn(b, l) && NamesIn(b, l + "_boot") && NamesIn(b, l + "_shell")
      && MachineLabel(l) && MachineLabel(l + "_boot") && MachineLabel(l + "_shell")
  {
    hide BlockOf, LabelOf;
    var l := LabelOf(m);
    var b := BlockOf(l, plan);
    LabelOfIsMachineLabel(m);
    HeadLines(l, plan);
    assert b[13] in b && b[3] in b && b[5] in b && l in Named(b[13]) && l + "_boot" in Named(b[3]) && l + "_shell" in Named(b[5]);
  }

  /** Within a block its sections have one line each. */
  lemma OwnSection(l: string, plan: Plan)
    ensures var b := BlockOf(l, plan);
      |b| >= 18 && OnlyInSections(b, l, Section(10)) && OnlyInSections(b, l + "_boot", Section(0))
  {
    hide BlockOf, Arm;
    var b := BlockOf(l, plan);
    HeadLines(l, plan);
    forall d, e | 0 <= d < |b| && 0 <= e < |b| && b[d].Label? && b[d] == b[e] ensures d == e {
      if d < e { BlockLabelsDistinct(l, plan, d, e); }
      if e < d { BlockLabelsDistinct(l, plan, e, d); }
    }
  }

  lemma RunBootAt(ctx: Context, ms: seq<Machine>, rescue: string -> bool, cl: Client, j: nat, s: State)
    returns (u: State, i: nat, q: nat)
    requires j < |ms| && s.Running? && s.pc == BlockStart(ctx, ms, rescue, j) + 14 && GoodVars(ms, s.vars)
    ensures Reaches(Script(ctx, ms, rescue), cl, s, u)
    ensures u.Running? ==> Progress(ctx, ms, rescue, j, 14, s, i, q, u)
  {
    hide Script, BlockOf, LabelOf, PlanOf, BlockStart, Reaches, GoodVars, Progress, Stands, FindLabel, FooterPlaced, NamesIn;
    var p, l, plan := Script(ctx, ms, rescue), LabelOf(ms[j]), PlanOf(ctx, ms[j], rescue(ms[j].mac));
    BlockStands(ctx, ms, rescue, j);
    FooterIsPlaced(ctx, ms, rescue);
    LabelOfIsMachineLabel(ms[j]);
    forall y | NamesIn(BlockOf(l, plan), y) && MachineLabel(y) ensures FindLabel(p, y).At? {
      var e, d := Lands(ctx, ms, rescue, j, y);
    }
    var t, x := RunBootSection(p, cl, BlockStart(ctx, ms, rescue, j), |p| - 12, l, plan, s);
    u, i, q := t, 0, 0;
    if t.Running? {
      FailSection(l, plan, x);
      u, i, q := JumpProgress(ctx, ms, rescue, j, 14, s, x, t);
    }
  }

  lemma FailSection(l: string, plan: Plan, x: string)
    requires FailLabel(l, x)
    ensures OnlyInSections(BlockOf(l, plan), x, Section(14))
  {
    hide BlockOf, Arm;
    HeadLines(l, plan);
    Suffixes(l);
  }

  lemma RunMenuSection(ctx: Context, ms: seq<Machine>, rescue: string -> bool, cl: Client, j: nat, s: State)
    returns (u: State, i: nat, q: nat)
    requires j < |ms| && s.Running? && s.pc == BlockStart(ctx, ms, rescue, j) && GoodVars(ms, s.vars)
    ensures Reaches(Script(ctx, ms, rescue), cl, s, u)
    ensures u.Running? ==> Progress(ctx, ms, rescue, j, 0, s, i, q, u)
  {
    hide Script, BlockOf, LabelOf, PlanOf, BlockStart, Reaches, Progress, Stands, FindLabel, Holds, Selection, MenuOf;
    var p, l, plan := Script(ctx, ms, rescue), LabelOf(ms[j]), PlanOf(ctx, ms[j], rescue(ms[j].mac));
    var o := BlockStart(ctx, ms, rescue, j);
    BlockStands(ctx, ms, rescue, j);
    var last :| Holds(s.vars, l, last);
    var m := s.(pc := o + 7, menu := MenuOf(l));
    RunToMenu(p, cl, o, l, plan, s);
    var t := RunChoose(p, cl, o, l, plan, m, last);
    ReachesTrans(p, cl, s, m, t);
    ChoiceKeepsGood(ms, s.vars, t.vars, l, Selection(s.choices, last));
    u, i, q := RunChosen(ctx, ms, rescue, cl, j, s, last, t);
    ReachesTrans(p, cl, s, t, u);
  }

  lemma RunChosen(ctx: Context, ms: seq<Machine>, rescue: string -> bool, cl: Client, j: nat, s: State, last: Selected, t: State)
    returns (u: State, i: nat, q: nat)
    requires j < |ms| && s.Running? && t.Running? && t.pc == BlockStart(ctx, ms, rescue, j) + 9 && GoodVars(ms, t.vars)
    requires Holds(t.vars, LabelOf(ms[j]), Selection(s.choices, last))
    requires t.choices == if s.choices == [] then [] else s.choices[1..]
    ensures Reaches(Script(ctx, ms, rescue), cl, t, u)
    ensures u.Running? ==> Progress(ctx, ms, rescue, j, 0, s, i, q, u)
  {
    hide Script, BlockOf, LabelOf, PlanOf, BlockStart, Reaches, Progress, Stands, FindLabel, Selection, GoodVars, NamesIn,
         MachineLabel, Step, FooterPlaced;
    var p, l, plan := Script(ctx, ms, rescue), LabelOf(ms[j]), PlanOf(ctx, ms[j], rescue(ms[j].mac));
    var v := l + "_menu_choice";
    BlockStands(ctx, ms, rescue, j);
    MenuLines(p, BlockStart(ctx, ms, rescue, j), l, plan);
    HeadNames(ms[j], plan);
    OwnSection(l, plan);
    i, q := 0, 0;
    match Selection(s.choices, last)
    case Nothing => {
      u := Halted(Stopped);
      RunGotoUnset(p, cl, t, v);
    }
    case BootTarget => {
      u, i, q := JumpProgress(ctx, ms, rescue, j, 0, s, l + "_boot", t);
      var w := RunGotoVar(p, cl, t, v, u.pc);
    }
    case NetbootMenu => {
      FooterIsPlaced(ctx, ms, rescue);
      MenuLabel(p, |p| - 12);
      var w := RunGotoVar(p, cl, t, v, |p| - 12 + 3);
      RunNetboot(p, cl, |p| - 12, w);
      u := Halted(NetbootOutcome(cl));
      ReachesTrans(p, cl, t, w, u);
    }
    case IpxeShell => {
      ShellNeedsAChoice(s.choices, last);
      u, i, q := JumpProgress(ctx, ms, rescue, j, 0, s, l + "_shell", t);
      var w := RunGotoVar(p, cl, t, v, u.pc);
    }
  }

  /** For every fleet, shadowed labels or not, every client and everything that may be answered, the
      run of the rendered script ends. */
  lemma EveryRunEnds(ctx: Context, ms: seq<Machine>, rescue: string -> bool, cl: Client, choices: seq<Choice>)
    ensures exists out :: Reaches(Script(ctx, ms, rescue), cl, Start(choices), Halted(out))
  {
    hide Script, Block, LabelOf, BlockStart, Reaches, FirstMatch, FindLabel, Landed, NetbootOutcome;
    RunToBlock(ctx, ms, rescue, cl, choices);
    if cl.buildarch != "arm64" && cl.buildarch != "arm32" && cl.dhcpWorks && FirstMatch(ms, cl).At? {
      var j := FirstMatch(ms, cl).index;
      var i, q := EntryLands(ctx, ms, rescue, j);
      var t := Start(choices).(pc := BlockStart(ctx, ms, rescue, i) + q);
      StartIsGood(ms);
      assert Landed(ctx, ms, rescue, i, q, t) by { IsLanded(ctx, ms, rescue, i, q, LabelOf(ms[j]), t); }
      var out := EndsFrom(ctx, ms, rescue, cl, i, q, t);
      ReachesTrans(Script(ctx, ms, rescue), cl, Start(choices), t, Halted(out));
    }
  }

  lemma EntryLands(ctx: Context, ms: seq<Machine>, rescue: string -> bool, j: nat) returns (i: nat, q: nat)
    requires j < |ms|
    ensures LandsAt(ctx, ms, rescue, LabelOf(ms[j]), i, q)
  {
    hide BlockOf, LabelOf, LandsAt, NamesIn;
    HeadNames(ms[j], PlanOf(ctx, ms[j], rescue(ms[j].mac)));
    i, q := Lands(ctx, ms, rescue, j, LabelOf(ms[j]));
  }

  lemma StartIsGood(ms: seq<Machine>)
    ensures GoodVars(ms, map[])
  {
    forall j | 0 <= j < |ms| ensures GoodFor(map[], LabelOf(ms[j])) {
      assert Holds(map[], LabelOf(ms[j]), Nothing);
    }
  }

  lemma IsLanded(ctx: Context, ms: seq<Machine>, rescue: string -> bool, i: nat, q: nat, x: string, s: State)
    requires LandsAt(ctx, ms, rescue, x, i, q) && s.Running? && s.pc == BlockStart(ctx, ms, rescue, i) + q && GoodVars(ms, s.vars)
    ensures Landed(ctx, ms, rescue, i, q, s)
  {
  }
}
