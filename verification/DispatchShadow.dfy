/** What shadowed labels do to the dispatch script, and which machine names cannot shadow. */
module DispatchShadow {
  import opened FleetTypes
  import opened Ipxe
  import opened Dispatch
  import opened DispatchMeaning
  import opened DispatchLayout
  import opened DispatchCorrect
  import opened Sorting
  import DispatchFlow
  import FleetFile
  import Mac
  import Text

  /** A jump to any label that block j both defines and names lands on the block's own line. */
  ghost predicate JumpsHome(ctx: Context, ms: seq<Machine>, rescue: string -> bool, j: nat)
    requires j < |ms|
  {
    var b := Block(ctx, ms[j], rescue(ms[j].mac));
    forall k | 0 <= k < |b| && b[k].Label? && NamesIn(b, b[k].name) ::
      FindLabel(Script(ctx, ms, rescue), b[k].name) == At(BlockStart(ctx, ms, rescue, j) + k)
  }

  /** Unshadowed is exactly what the jumps need. */
  lemma UnshadowedIsOwnJumps(ctx: Context, ms: seq<Machine>, rescue: string -> bool)
    ensures Unshadowed(ctx, ms, rescue) <==> forall j: nat | j < |ms| :: JumpsHome(ctx, ms, rescue, j)
  {
    hide JumpsHome, ClearAbove;
    forall j: nat | j < |ms| ensures ClearAbove(ctx, ms, rescue, j) <==> JumpsHome(ctx, ms, rescue, j) {
      ClearIsOwnJumps(ctx, ms, rescue, j);
    }
  }

  lemma ClearIsOwnJumps(ctx: Context, ms: seq<Machine>, rescue: string -> bool, j: nat)
    requires j < |ms|
    ensures ClearAbove(ctx, ms, rescue, j) <==> JumpsHome(ctx, ms, rescue, j)
  {
    hide BlockOf, PlanOf, LabelOf, Script, BlockStart, Labels, NamesIn, FindLabel;
    if ClearAbove(ctx, ms, rescue, j) {
      BlockIsPlaced(ctx, ms, rescue, j);
    } else {
      var i, l :| 0 <= i < j && l in Labels(Block(ctx, ms[i], rescue(ms[i].mac))) && NamesIn(Block(ctx, ms[j], rescue(ms[j].mac)), l);
      LabelOfIsMachineLabel(ms[i]);
      BlockLabels(LabelOf(ms[i]), PlanOf(ctx, ms[i], rescue(ms[i].mac)));
      var k := NamedIsDefined(LabelOf(ms[j]), PlanOf(ctx, ms[j], rescue(ms[j].mac)), l);
      OwnLabel(ctx, ms, rescue, j, k);
    }
  }

  /** A block defines each machine label that it names. */
  lemma {:induction false} NamedIsDefined(l: string, plan: Plan, x: string) returns (k: nat)
    requires MachineLabel(x)
    ensures NamesIn(BlockOf(l, plan), x) ==> k < |BlockOf(l, plan)| && BlockOf(l, plan)[k] == Label(x)
  {
    hide BlockOf;
    var b := BlockOf(l, plan);
    k := 0;
    if !NamesIn(b, x) { return; }
    var q: nat :| q < |b| && x in Named(b[q]);
    k := DispatchFlow.BlockJumps(l, plan, q, x);
    FixedLabels();
  }

  // ----- where the jumps go astray -----

  /** No earlier block defines machine j's label. */
  ghost predicate EntryClear(ctx: Context, ms: seq<Machine>, rescue: string -> bool, j: nat)
    requires j < |ms|
  {
    forall i, l | 0 <= i < j && l in Labels(Block(ctx, ms[i], rescue(ms[i].mac))) :: l != LabelOf(ms[j])
  }

  /** From the start to where the boot default of machine j's menu jumps. */
  lemma RunDefaultJump(ctx: Context, ms: seq<Machine>, rescue: string -> bool, cl: Client, choices: seq<Choice>, j: nat, q: nat)
    returns (u: State)
    requires j < |ms| && FirstMatch(ms, cl) == At(j) && Selection(choices, Nothing).BootTarget?
    requires cl.buildarch != "arm64" && cl.buildarch != "arm32" && cl.dhcpWorks
    requires EntryClear(ctx, ms, rescue, j)
    ensures FindLabel(Script(ctx, ms, rescue), LabelOf(ms[j]) + "_boot") == At(q) ==>
              && Reaches(Script(ctx, ms, rescue), cl, Start(choices), u) && u.Running? && u.pc == q
              && u.vars.Keys <= {LabelOf(ms[j]) + "_menu_choice"}
              && u.choices == if choices == [] then [] else choices[1..]
  {
    hide Script, Block, PlanOf, LabelOf, Labels, FindLabel, BlockStart, Reaches, Stands, Selection, FirstMatch;
    var p, l, plan := Script(ctx, ms, rescue), LabelOf(ms[j]), PlanOf(ctx, ms[j], rescue(ms[j].mac));
    var o := BlockStart(ctx, ms, rescue, j);
    RunToBlock(ctx, ms, rescue, cl, choices);
    EntryLabel(ctx, ms, rescue, j);
    BlockStands(ctx, ms, rescue, j);
    assert Stands(p, o, BlockOf(l, plan)) by { assert Block(ctx, ms[j], rescue(ms[j].mac)) == BlockOf(l, plan) by { BlockIs(ctx, ms[j], rescue(ms[j].mac)); } }
    var s := Start(choices).(pc := o);
    RunToMenu(p, cl, o, l, plan, s);
    var m := s.(pc := o + 7, menu := MenuOf(l));
    ReachesTrans(p, cl, Start(choices), s, m);
    var t := RunChoose(p, cl, o, l, plan, m, Nothing);
    ReachesTrans(p, cl, Start(choices), m, t);
    u := t;
    if FindLabel(p, l + "_boot") == At(q) {
      u := RunGotoBoot(p, cl, o, l, plan, t, q);
      ReachesTrans(p, cl, Start(choices), t, u);
    }
  }

  lemma BlockIs(ctx: Context, m: Machine, rescue: bool)
    ensures Block(ctx, m, rescue) == BlockOf(LabelOf(m), PlanOf(ctx, m, rescue))
  {
  }

  lemma RunGotoBoot(p: seq<Ins>, cl: Client, o: nat, l: string, plan: Plan, t: State, q: nat) returns (u: State)
    requires Stands(p, o, BlockOf(l, plan)) && FindLabel(p, l + "_boot") == At(q)
    requires t.Running? && t.pc == o + 9 && Holds(t.vars, l, BootTarget)
    ensures u == t.(pc := q) && Reaches(p, cl, t, u)
  {
    hide FindLabel, Stands, BlockOf, Step;
    MenuLines(p, o, l, plan);
    u := RunGotoVar(p, cl, t, l + "_menu_choice", q);
  }

  /** Two machines with one label: every client of the later one gets the menu and the target of
      the earlier one. */
  lemma {:induction false} SameLabelBootsOther(ctx: Context, ms: seq<Machine>, rescue: string -> bool, cl: Client, choices: seq<Choice>, i: nat, j: nat)
    requires i < j < |ms| && FirstMatch(ms, cl) == At(j) && LabelOf(ms[j]) == LabelOf(ms[i])
    requires ClearAbove(ctx, ms, rescue, i)
    requires cl.buildarch != "arm64" && cl.buildarch != "arm32" && cl.dhcpWorks
    ensures Reaches(Script(ctx, ms, rescue), cl, Start(choices),
                    Halted(ArmOutcome(PlanOf(ctx, ms[i], rescue(ms[i].mac)), cl, choices, Nothing)))
  {
    hide Script, Block, PlanOf, LabelOf, Labels, NamesIn, Matches, FindLabel, ArmOutcome, BlockStart, Reaches, ClearAbove;
    RunToBlock(ctx, ms, rescue, cl, choices);
    EntryIsUnshadowed(ctx, ms, rescue, i);
    var t := Start(choices).(pc := BlockStart(ctx, ms, rescue, i));
    RunBlock(ctx, ms, rescue, cl, choices, i, t);
    ReachesTrans(Script(ctx, ms, rescue), cl, Start(choices), t,
                 Halted(ArmOutcome(PlanOf(ctx, ms[i], rescue(ms[i].mac)), cl, choices, Nothing)));
  }

  /** x after x_boot: the boot default of x's menu jumps into x_boot's block, so its client is shown
      the other machine's menu and ends with the other machine's target. */
  lemma {:induction false} DefaultEntersOther(ctx: Context, ms: seq<Machine>, rescue: string -> bool, cl: Client, choices: seq<Choice>, i: nat, j: nat)
    requires i < j < |ms| && FirstMatch(ms, cl) == At(j) && LabelOf(ms[i]) == LabelOf(ms[j]) + "_boot"
    requires ClearAbove(ctx, ms, rescue, i)
    requires EntryClear(ctx, ms, rescue, j)
    requires cl.buildarch != "arm64" && cl.buildarch != "arm32" && cl.dhcpWorks && Selection(choices, Nothing).BootTarget?
    ensures Reaches(Script(ctx, ms, rescue), cl, Start(choices),
                    Halted(ArmOutcome(PlanOf(ctx, ms[i], rescue(ms[i].mac)), cl,
                                      if choices == [] then [] else choices[1..], Nothing)))
  {
    hide Script, BlockOf, PlanOf, LabelOf, Labels, FindLabel, ArmOutcome, BlockStart, Reaches, ClearAbove, FirstMatch, Selection,
         Placed, FooterPlaced;
    var p, plan := Script(ctx, ms, rescue), PlanOf(ctx, ms[i], rescue(ms[i].mac));
    var o, rest := BlockStart(ctx, ms, rescue, i), if choices == [] then [] else choices[1..];
    EntryIsUnshadowed(ctx, ms, rescue, i);
    var u := RunDefaultJump(ctx, ms, rescue, cl, choices, j, o);
    BlockIsPlaced(ctx, ms, rescue, i);
    FooterIsPlaced(ctx, ms, rescue);
    assert |LabelOf(ms[i]) + "_menu_choice"| != |LabelOf(ms[j]) + "_menu_choice"|;
    RunArm(p, cl, o, |p| - 12, LabelOf(ms[i]), plan, u, Nothing);
    ReachesTrans(p, cl, Start(choices), u, Halted(ArmOutcome(plan, cl, rest, Nothing)));
  }

  /** x_boot after x: every client of x_boot starts in x's boot section, without a menu. */
  lemma {:induction false} EntryBootsOther(ctx: Context, ms: seq<Machine>, rescue: string -> bool, cl: Client, choices: seq<Choice>, i: nat, j: nat)
    requires i < j < |ms| && FirstMatch(ms, cl) == At(j) && LabelOf(ms[j]) == LabelOf(ms[i]) + "_boot"
    requires ClearAbove(ctx, ms, rescue, i)
    requires cl.buildarch != "arm64" && cl.buildarch != "arm32" && cl.dhcpWorks
    ensures Reaches(Script(ctx, ms, rescue), cl, Start(choices), Halted(PlanOutcome(PlanOf(ctx, ms[i], rescue(ms[i].mac)), cl)))
  {
    hide Script, BlockOf, PlanOf, LabelOf, Labels, FindLabel, PlanOutcome, BlockStart, Reaches, ClearAbove, FirstMatch, Placed,
         FooterPlaced;
    var p, plan := Script(ctx, ms, rescue), PlanOf(ctx, ms[i], rescue(ms[i].mac));
    var o := BlockStart(ctx, ms, rescue, i);
    RunToBlock(ctx, ms, rescue, cl, choices);
    BlockIsPlaced(ctx, ms, rescue, i);
    FooterIsPlaced(ctx, ms, rescue);
    MenuTargets(p, o, LabelOf(ms[i]), plan);
    var t := Start(choices).(pc := o + 14);
    RunBoot(p, cl, o, |p| - 12, LabelOf(ms[i]), plan, t);
    ReachesTrans(p, cl, Start(choices), t, Halted(PlanOutcome(plan, cl)));
  }

  /** x_fail after x: x's error block for a failed boot has the label of x_fail's boot section, so
      the boot default of x_fail reboots. */
  lemma {:induction false} DefaultReboots(ctx: Context, ms: seq<Machine>, rescue: string -> bool, cl: Client, choices: seq<Choice>, i: nat, j: nat)
    requires i < j < |ms| && FirstMatch(ms, cl) == At(j) && LabelOf(ms[j]) == LabelOf(ms[i]) + "_fail"
    requires ClearAbove(ctx, ms, rescue, i) && EntryClear(ctx, ms, rescue, j)
    requires cl.buildarch != "arm64" && cl.buildarch != "arm32" && cl.dhcpWorks && Selection(choices, Nothing).BootTarget?
    ensures PlanOf(ctx, ms[i], rescue(ms[i].mac)).KernelPlan? ==>
              Reaches(Script(ctx, ms, rescue), cl, Start(choices), Halted(Rebooted))
  {
    hide Script, BlockOf, PlanOf, LabelOf, Labels, FindLabel, BlockStart, Reaches, ClearAbove, FirstMatch, Selection, Placed;
    var p, plan := Script(ctx, ms, rescue), PlanOf(ctx, ms[i], rescue(ms[i].mac));
    var o, l := BlockStart(ctx, ms, rescue, i), LabelOf(ms[i]);
    if !plan.KernelPlan? { return; }
    BlockIsPlaced(ctx, ms, rescue, i);
    KernelErrors(p, cl, o, l, plan.kernel, plan.initrd);
    assert l + "_fail" + "_boot" == l + "_fail_boot";
    var u := RunDefaultJump(ctx, ms, rescue, cl, choices, j, o + 32);
    ReachesTrans(p, cl, Start(choices), u, Halted(Rebooted));
  }

  /** An accepted fleet for which the script is wrong: both machines pass every check that the HTTP
      layer, validateProfile and reload make, the names kube-1 and kube_1 give one label, and the
      second machine, left alone, installs Debian although its target is the menu. */
  lemma KubeNamesCollide(ctx: Context)
    ensures var p := Profile("debian-12", "kube-1", "", "", "", "", "", map[]);
      var q := p.(boot := "menu", name := "kube_1");
      var machines := map[MAC1 := p, MAC2 := q];
      var ms := ByMac(machines);
      var plan := DebianPlan(ctx, MAC1, "bookworm");
      var cl := Client("x86_64", [Mac.Hyphenated(MAC2)], true, {plan.kernel.url, plan.initrd, NETBOOT}, true);
      && FleetFile.AdmittedStore(Store(machines, Profile("menu", "", "", "", "", "", "", map[])))
      && ValidProfile(p, Files({}, {})) && ValidProfile(q, Files({}, {}))
      && Meaning(ctx, ms, _ => false, cl, []) == Chained(NETBOOT)
      && Reaches(Script(ctx, ms, _ => false), cl, Start([]),
                 Halted(Booted([KernelImage(plan.kernel), InitrdImage(plan.initrd)])))
  {
    hide Script, DebianPlan, AutoinstallBase, Reaches, ByMac, Mac.IsCanonical, IsListing, FirstMatch, Matches;
    var p := Profile("debian-12", "kube-1", "", "", "", "", "", map[]);
    var q := p.(boot := "menu", name := "kube_1");
    CanonicalMacs();
    TwoMachines(p, q);
    var ms := [Machine(MAC1, p), Machine(MAC2, q)];
    var plan := DebianPlan(ctx, MAC1, "bookworm");
    var cl := Client("x86_64", [Mac.Hyphenated(MAC2)], true, {plan.kernel.url, plan.initrd, NETBOOT}, true);
    OneClient(cl, ms);
    KubeLabels(ms);
    SameLabelBootsOther(ctx, ms, _ => false, cl, [], 0, 1);
  }

  const MAC1 := "00:00:00:00:00:01"
  const MAC2 := "00:00:00:00:00:02"

  lemma OneClient(cl: Client, ms: seq<Machine>)
    requires cl.macs == [Mac.Hyphenated(MAC2)] && |ms| == 2 && ms[0].mac == MAC1 && ms[1].mac == MAC2
    ensures FirstMatch(ms, cl) == At(1)
  {
    assert Mac.Hyphenated(MAC1)[16] == '1' && Mac.Hyphenated(MAC2)[16] == '2';
    assert HasNic(cl, 0, Mac.Hyphenated(MAC2));
    assert !Matches(cl, ms[0]) && Matches(cl, ms[1]);
  }

  lemma KubeLabels(ms: seq<Machine>)
    requires |ms| == 2 && ms[0].profile.name == "kube-1" && ms[1].profile.name == "kube_1"
    ensures LabelOf(ms[0]) == LabelOf(ms[1])
  {
    assert "kube-1"[4] == '-' && "kube_1"[4] == '_';
    assert forall i | 0 <= i < 6 && i != 4 :: "kube-1"[i] == "kube_1"[i];
    assert Sanitized("kube-1") == Sanitized("kube_1");
  }

  lemma CanonicalMacs()
    ensures Mac.IsCanonical(MAC1) && Mac.IsCanonical(MAC2)
  {
    assert Mac.IsOctets("000000000001") && MAC1 == Mac.Colon("000000000001");
    assert Mac.IsOctets("000000000002") && MAC2 == Mac.Colon("000000000002");
  }

  lemma InOrder()
    ensures MAC1 != MAC2 && Text.Less(MAC1, MAC2)
  {
    hide Text.Less;
    LastCharacter("00:00:00:00:00:0", '1', '2');
    assert MAC1 == "00:00:00:00:00:0" + ['1'] && MAC2 == "00:00:00:00:00:0" + ['2'];
    assert MAC1[16] == '1' && MAC2[16] == '2';
  }

  lemma TwoMachines(p: Profile, q: Profile)
    ensures ByMac(map[MAC1 := p, MAC2 := q]) == [Machine(MAC1, p), Machine(MAC2, q)]
  {
    InOrder();
    SortedPair(MAC1, p, MAC2, q);
  }

  lemma SortedPair(a: string, p: Profile, b: string, q: Profile)
    requires a != b && Text.Less(a, b)
    ensures ByMac(map[a := p, b := q]) == [Machine(a, p), Machine(b, q)]
  {
    hide Text.Less, ByMac;
    var machines, ms := map[a := p, b := q], [Machine(a, p), Machine(b, q)];
    assert IsListing(machines, ms);
    ByMacIsDetermined(machines, ms);
    AscendingUnique(MacKey, ByMac(machines), ms);
  }

  lemma {:induction false} LastCharacter(a: string, c: char, d: char)
    requires c < d
    ensures Text.Less(a + [c], a + [d])
  {
    if a != "" {
      LastCharacter(a[1..], c, d);
      assert (a + [c])[1..] == a[1..] + [c] && (a + [d])[1..] == a[1..] + [d];
    }
  }

  // ----- names that cannot shadow -----

  /** What a block appends to its label, and "_fail", which is what is left of "_fail_boot" in
      front of "_boot". */
  const SUFFIXES: seq<string> := ["", "_shell", "_boot", "_fail_dhcp", "_fail_kernel", "_fail_initrd", "_fail_boot", "_fail_chain"]

  ghost predicate Extends(l: string, x: string) {
    x == l + "_fail" || exists s :: s in SUFFIXES && x == l + s
  }

  /** A fleet's labels are tidy when they are pairwise distinct and none is another one with a
      block suffix or "_fail" behind it. */
  ghost predicate TidyLabels(ms: seq<Machine>) {
    forall i, j | 0 <= i < |ms| && 0 <= j < |ms| && i != j :: !Extends(LabelOf(ms[i]), LabelOf(ms[j]))
  }

  lemma {:induction false} SuffixOfSuffix(s: string, t: string)
    requires s in SUFFIXES && t in SUFFIXES && |t| <= |s| && s[|s| - |t|..] == t
    ensures s == t || t == "" || (s == "_fail_boot" && t == "_boot")
  {
    if t != "" && s != t {
      assert s[|s| - 1] == t[|t| - 1] && s[|s| - 2] == t[|t| - 2];
    }
  }

  lemma SameText(a: string, s: string, b: string, t: string)
    requires a + s == b + t && |t| <= |s|
    ensures s[|s| - |t|..] == t && b == a + s[..|s| - |t|]
  {
    var x := a + s;
    assert x[|x| - |t|..] == t && x[|x| - |t|..] == s[|s| - |t|..];
    assert x[..|x| - |t|] == b && x[..|x| - |t|] == a + s[..|s| - |t|];
  }

  lemma SuffixesMeet(a: string, s: string, b: string, t: string)
    requires s in SUFFIXES && t in SUFFIXES && a + s == b + t && |t| <= |s|
    ensures Extends(a, b)
  {
    SameText(a, s, b, t);
    SuffixOfSuffix(s, t);
    var r := s[..|s| - |t|];
    if s == t {
      assert r == "";
    } else if t == "" {
      assert r == s;
    } else {
      assert r == "_fail";
    }
    assert "" in SUFFIXES;
  }

  lemma DefinedLabel(l: string, plan: Plan, x: string)
    requires x in Labels(BlockOf(l, plan))
    ensures exists s :: s in SUFFIXES && x == l + s
  {
    hide BlockOf;
    var b := BlockOf(l, plan);
    var i: nat :| i < |b| && b[i] == Label(x);
    if i < 18 {
      HeadSuffix(l, plan, i);
    } else {
      match plan
      case KernelPlan(k, initrd) => KernelSuffix(l, k, initrd, i);
      case ChainPlan(url) => ChainSuffix(l, url, i);
      case UnknownPlan => UnknownBlockLine(l);
    }
  }

  lemma HeadSuffix(l: string, plan: Plan, i: nat)
    requires i < 18 && i < |BlockOf(l, plan)| && BlockOf(l, plan)[i].Label?
    ensures exists s :: s in SUFFIXES && BlockOf(l, plan)[i].name == l + s
  {
    hide BlockOf, Arm;
    HeadLines(l, plan);
    HeadLabels(l, plan, i);
    var s := SUFFIXES[if i == 0 then 0 else if i == 10 then 1 else 2];
    assert l == l + "";
    assert BlockOf(l, plan)[i].name == l + s;
  }

  lemma KernelSuffix(l: string, k: Kernel, initrd: string, i: nat)
    requires var b := BlockOf(l, KernelPlan(k, initrd)); 18 <= i < |b| && b[i].Label?
    ensures exists s :: s in SUFFIXES && BlockOf(l, KernelPlan(k, initrd))[i].name == l + s
  {
    hide BlockOf;
    KernelBlockLines(l, k, initrd);
    assert i in {23, 26, 29, 32};
    var s := SUFFIXES[if i == 23 then 3 else if i == 26 then 4 else if i == 29 then 5 else 6];
    assert BlockOf(l, KernelPlan(k, initrd))[i].name == l + s;
  }

  lemma ChainSuffix(l: string, url: string, i: nat)
    requires var b := BlockOf(l, ChainPlan(url)); 18 <= i < |b| && b[i].Label?
    ensures exists s :: s in SUFFIXES && BlockOf(l, ChainPlan(url))[i].name == l + s
  {
    hide BlockOf;
    ChainBlockLines(l, url);
    assert i in {19, 22};
    var s := SUFFIXES[if i == 19 then 3 else 7];
    assert BlockOf(l, ChainPlan(url))[i].name == l + s;
  }

  /** Tidy labels shadow nothing, whatever the MAC order, the targets and the intents are. */
  lemma TidyIsUnshadowed(ctx: Context, ms: seq<Machine>, rescue: string -> bool)
    requires TidyLabels(ms)
    ensures Unshadowed(ctx, ms, rescue)
  {
    hide BlockOf, PlanOf, LabelOf, Labels, NamesIn, Extends;
    forall j: nat, i, x | j < |ms| && 0 <= i < j && x in Labels(Block(ctx, ms[i], rescue(ms[i].mac)))
      ensures !NamesIn(Block(ctx, ms[j], rescue(ms[j].mac)), x)
    {
      Shadowing(ctx, ms[i], rescue(ms[i].mac), ms[j], rescue(ms[j].mac), x);
    }
  }

  lemma {:induction false} Shadowing(ctx: Context, m: Machine, rm: bool, n: Machine, rn: bool, x: string)
    ensures x in Labels(Block(ctx, m, rm)) && NamesIn(Block(ctx, n, rn), x) ==>
              Extends(LabelOf(m), LabelOf(n)) || Extends(LabelOf(n), LabelOf(m))
  {
    hide BlockOf, PlanOf, LabelOf, Extends, NamesIn;
    if x !in Labels(Block(ctx, m, rm)) || !NamesIn(Block(ctx, n, rn), x) { return; }
    LabelOfIsMachineLabel(m);
    BlockLabels(LabelOf(m), PlanOf(ctx, m, rm));
    var k := NamedIsDefined(LabelOf(n), PlanOf(ctx, n, rn), x);
    DefinedLabel(LabelOf(m), PlanOf(ctx, m, rm), x);
    DefinedLabel(LabelOf(n), PlanOf(ctx, n, rn), x);
    var s :| s in SUFFIXES && x == LabelOf(m) + s;
    var t :| t in SUFFIXES && x == LabelOf(n) + t;
    if |t| <= |s| { SuffixesMeet(LabelOf(m), s, LabelOf(n), t); } else { SuffixesMeet(LabelOf(n), t, LabelOf(m), s); }
  }

  /** Compiler correctness from the names alone. */
  lemma TidyScriptMeansLookup(ctx: Context, ms: seq<Machine>, rescue: string -> bool, cl: Client, choices: seq<Choice>)
    requires TidyLabels(ms)
    ensures Reaches(Script(ctx, ms, rescue), cl, Start(choices), Halted(Meaning(ctx, ms, rescue, cl, choices)))
  {
    TidyIsUnshadowed(ctx, ms, rescue);
    ScriptMeansLookup(ctx, ms, rescue, cl, choices);
  }
}
