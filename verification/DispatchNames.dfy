/** Which machine names a dispatch script can be compiled from: the exact condition. */
module DispatchNames {
  import opened FleetTypes
  import opened Ipxe
  import opened Dispatch
  import opened DispatchMeaning
  import opened DispatchLayout
  import opened DispatchCorrect
  import opened DispatchShadow
  import opened Sorting
  import FleetFile
  import Mac
  import Text

  /** The label of a machine with this name. */
  function NameLabel(name: string): string {
    "m_" + Sanitized(name)
  }

  /** The labels are pairwise distinct and none is another one with a block suffix or "_fail"
      behind it. */
  ghost predicate TidyNames(names: seq<string>) {
    forall i, j | 0 <= i < |names| && 0 <= j < |names| && i != j :: !Extends(NameLabel(names[i]), NameLabel(names[j]))
  }

  ghost predicate IsOrder(order: seq<nat>, n: nat) {
    && |order| == n
    && (forall k | 0 <= k < n :: order[k] < n)
    && (forall k, q | 0 <= k < q < n :: order[k] != order[q])
  }

  ghost predicate MacList(macs: seq<string>) {
    && (forall k | 0 <= k < |macs| :: Mac.IsCanonical(macs[k]))
    && (forall k, q | 0 <= k < q < |macs| :: Text.Less(macs[k], macs[q]))
  }

  /** A profile that every check accepts, with the side files in place. */
  ghost predicate Accepted(p: Profile) {
    FleetFile.Admitted(p) && exists files :: ValidProfile(p, files)
  }

  /** ms is a fleet in MAC order whose machines have these names, in the given order, and any accepted
      targets. */
  ghost predicate Arranged(names: seq<string>, macs: seq<string>, order: seq<nat>, ms: seq<Machine>)
    requires |macs| == |names| && IsOrder(order, |names|)
  {
    && |ms| == |names|
    && forall k | 0 <= k < |ms| ::
         ms[k].mac == macs[k] && ms[k].profile.name == names[order[k]] && Accepted(ms[k].profile)
  }

  function Armed(macs: set<string>): string -> bool {
    (mac: string) => mac in macs
  }

  /** Whatever the intents, for every client and all answers the script does what it is for. */
  ghost predicate AlwaysMeant(ctx: Context, ms: seq<Machine>) {
    forall armed, cl, choices ::
      Reaches(Script(ctx, ms, Armed(armed)), cl, Start(choices), Halted(Meaning(ctx, ms, Armed(armed), cl, choices)))
  }

  /** For any MACs: the names are tidy if and only if in every order of the machines, with every
      accepted choice of targets, the script always means the lookup. */
  lemma TidyIsExact(ctx: Context, names: seq<string>, macs: seq<string>)
    requires MacList(macs) && |macs| == |names| && forall k | 0 <= k < |names| :: names[k] != ""
    ensures TidyNames(names) <==>
            forall order, ms | IsOrder(order, |names|) && Arranged(names, macs, order, ms) :: AlwaysMeant(ctx, ms)
  {
    hide AlwaysMeant, Extends, Accepted, IsOrder, MacList;
    if TidyNames(names) {
      forall order, ms | IsOrder(order, |names|) && Arranged(names, macs, order, ms) ensures AlwaysMeant(ctx, ms) {
        TidyFleet(ctx, names, macs, order, ms);
      }
    } else {
      var i, j :| 0 <= i < |names| && 0 <= j < |names| && i != j && Extends(NameLabel(names[i]), NameLabel(names[j]));
      var order, ms := UntidyFleet(ctx, names, macs, i, j);
      assert !AlwaysMeant(ctx, ms);
    }
  }

  lemma TidyFleet(ctx: Context, names: seq<string>, macs: seq<string>, order: seq<nat>, ms: seq<Machine>)
    requires TidyNames(names) && |macs| == |names| && forall k | 0 <= k < |names| :: names[k] != ""
    requires IsOrder(order, |names|) && Arranged(names, macs, order, ms)
    ensures AlwaysMeant(ctx, ms)
  {
    hide Script, Reaches, Meaning, Extends, Accepted;
    assert TidyLabels(ms) by {
      forall i, j | 0 <= i < |ms| && 0 <= j < |ms| && i != j ensures !Extends(LabelOf(ms[i]), LabelOf(ms[j])) {
        assert order[i] != order[j];
      }
    }
    forall armed, cl, choices
      ensures Reaches(Script(ctx, ms, Armed(armed)), cl, Start(choices), Halted(Meaning(ctx, ms, Armed(armed), cl, choices)))
    {
      TidyScriptMeansLookup(ctx, ms, Armed(armed), cl, choices);
    }
  }

  // ----- an untidy pair, put first in MAC order -----

  function Swapped(order: seq<nat>, a: nat, b: nat): seq<nat>
    requires a < |order| && b < |order|
  {
    order[a := order[b]][b := order[a]]
  }

  lemma SwappedIsOrder(order: seq<nat>, n: nat, a: nat, b: nat)
    requires IsOrder(order, n) && a < n && b < n
    ensures IsOrder(Swapped(order, a, b), n)
  {
  }

  lemma PairFirst(n: nat, i: nat, j: nat) returns (order: seq<nat>)
    requires i < n && j < n && i != j
    ensures IsOrder(order, n) && order[0] == i && order[1] == j
  {
    var id: seq<nat> := seq(n, k requires 0 <= k < n => k);
    var one := Swapped(id, 0, i);
    SwappedIsOrder(id, n, 0, i);
    var q := if j == 0 then i else j;
    assert one[q] == j;
    order := Swapped(one, 1, q);
    SwappedIsOrder(one, n, 1, q);
  }

  /** The target that makes the earlier machine's block define its label with this suffix. */
  function FirstTarget(suffix: string): string {
    if suffix == "_fail_chain" then "menu" else "debian-12"
  }

  function Bare(boot: string, name: string): Profile {
    Profile(boot, name, "", "", "", "", "", map[])
  }

  lemma BareIsAccepted(boot: string, name: string)
    requires boot == "menu" || boot == "debian-12"
    ensures Accepted(Bare(boot, name))
  {
    assert ValidProfile(Bare(boot, name), Files({}, {}));
  }

  /** The fleet in which the first machine has this target and all others the menu. */
  function Fleet(names: seq<string>, macs: seq<string>, order: seq<nat>, first: string): (ms: seq<Machine>)
    requires |macs| == |names| == |order| && forall k | 0 <= k < |order| :: order[k] < |names|
    ensures |ms| == |names|
    ensures forall k | 0 <= k < |ms| :: ms[k] == Machine(macs[k], Bare(if k == 0 then first else "menu", names[order[k]]))
  {
    seq(|names|, k requires 0 <= k < |names| => Machine(macs[k], Bare(if k == 0 then first else "menu", names[order[k]])))
  }

  lemma FleetIsArranged(names: seq<string>, macs: seq<string>, order: seq<nat>, first: string)
    requires |macs| == |names| && IsOrder(order, |names|) && (first == "menu" || first == "debian-12")
    ensures Arranged(names, macs, order, Fleet(names, macs, order, first))
  {
    hide Accepted;
    var ms := Fleet(names, macs, order, first);
    forall k | 0 <= k < |ms| ensures Accepted(ms[k].profile) {
      BareIsAccepted(if k == 0 then first else "menu", names[order[k]]);
    }
  }

  lemma UntidyFleet(ctx: Context, names: seq<string>, macs: seq<string>, i: nat, j: nat) returns (order: seq<nat>, ms: seq<Machine>)
    requires MacList(macs) && |macs| == |names| && forall k | 0 <= k < |names| :: names[k] != ""
    requires i < |names| && j < |names| && i != j && Extends(NameLabel(names[i]), NameLabel(names[j]))
    ensures IsOrder(order, |names|) && Arranged(names, macs, order, ms) && !AlwaysMeant(ctx, ms)
  {
    hide Accepted, AlwaysMeant, Mac.IsCanonical, Text.Less;
    order := PairFirst(|names|, i, j);
    var s :| (s == "_fail" || s in SUFFIXES) && NameLabel(names[j]) == NameLabel(names[i]) + s;
    ms := Fleet(names, macs, order, FirstTarget(s));
    FleetIsArranged(names, macs, order, FirstTarget(s));
    var cl := Client("x86_64", [Mac.Hyphenated(macs[1])], true, {NETBOOT}, true);
    SecondMatches(ms, macs, cl);
    PairIsNotMeant(ctx, ms, cl, s);
  }

  lemma SecondMatches(ms: seq<Machine>, macs: seq<string>, cl: Client)
    requires MacList(macs) && |ms| == |macs| >= 2 && forall k | 0 <= k < |ms| :: ms[k].mac == macs[k]
    requires cl.macs == [Mac.Hyphenated(macs[1])]
    ensures FirstMatch(ms, cl) == At(1)
  {
    hide Mac.IsCanonical;
    Text.LessIsTotal(macs[0], macs[1]);
    if Matches(cl, ms[0]) { Mac.HyphenatedInjective(macs[0], macs[1]); }
    assert HasNic(cl, 0, Mac.Hyphenated(macs[1]));
    assert Matches(cl, ms[1]);
  }

  lemma PairIsNotMeant(ctx: Context, ms: seq<Machine>, cl: Client, s: string)
    requires |ms| >= 2 && (s == "_fail" || s in SUFFIXES) && LabelOf(ms[1]) == LabelOf(ms[0]) + s
    requires ms[0].profile.boot == FirstTarget(s) && ms[1].profile.boot == "menu"
    requires FirstMatch(ms, cl) == At(1) && cl.buildarch == "x86_64" && cl.dhcpWorks && cl.fetchable == {NETBOOT}
    ensures !AlwaysMeant(ctx, ms)
  {
    hide Script, Reaches, LabelOf, FirstMatch, FirstTarget;
    PairReboots(ctx, ms, cl, s);
    var p, m := Script(ctx, ms, Armed({})), Meaning(ctx, ms, Armed({}), cl, []);
    assert m == Chained(NETBOOT);
    if Reaches(p, cl, Start([]), Halted(m)) { OneOutcome(p, cl, Start([]), m, Rebooted); }
  }

  /** Left alone, a client of the second machine reboots, though its target is the netboot.xyz menu
      and that can be reached. */
  lemma PairReboots(ctx: Context, ms: seq<Machine>, cl: Client, s: string)
    requires |ms| >= 2 && (s == "_fail" || s in SUFFIXES) && LabelOf(ms[1]) == LabelOf(ms[0]) + s
    requires ms[0].profile.boot == FirstTarget(s)
    requires FirstMatch(ms, cl) == At(1) && cl.buildarch == "x86_64" && cl.dhcpWorks && cl.fetchable == {NETBOOT}
    ensures Reaches(Script(ctx, ms, Armed({})), cl, Start([]), Halted(Rebooted))
  {
    hide Script, Reaches, LabelOf, FirstMatch, DebianPlan, BlockOf, BlockStart;
    if s == "_fail_chain" {
      ChainBlockLines(LabelOf(ms[0]), NETBOOT);
      EntryReboots(ctx, ms, Armed({}), cl, 22);
    } else {
      DebianIsUnreachable(ctx, ms[0].mac, cl);
      KernelPairReboots(ctx, ms, Armed({}), cl, s);
    }
  }

  lemma KernelPairReboots(ctx: Context, ms: seq<Machine>, rescue: string -> bool, cl: Client, s: string)
    requires |ms| >= 2 && (s == "_fail" || s in SUFFIXES[..7]) && LabelOf(ms[1]) == LabelOf(ms[0]) + s
    requires var plan := PlanOf(ctx, ms[0], rescue(ms[0].mac)); plan.KernelPlan? && PlanOutcome(plan, cl) == Rebooted
    requires FirstMatch(ms, cl) == At(1) && cl.buildarch == "x86_64" && cl.dhcpWorks
    ensures Reaches(Script(ctx, ms, rescue), cl, Start([]), Halted(Rebooted))
  {
    hide Script, Reaches, LabelOf, FirstMatch, PlanOf, Block, ClearAbove, EntryClear, PlanOutcome;
    var plan := PlanOf(ctx, ms[0], rescue(ms[0].mac));
    NothingAbove(ctx, ms, rescue);
    if s == "" {
      DefaultArm(plan, cl);
      assert LabelOf(ms[0]) + "" == LabelOf(ms[0]);
      SameLabelBootsOther(ctx, ms, rescue, cl, [], 0, 1);
    } else if s == "_shell" {
      EntryShells(ctx, ms, rescue, cl);
    } else if s == "_boot" {
      EntryBootsOther(ctx, ms, rescue, cl, [], 0, 1);
    } else if s == "_fail" {
      FailIsClear(ctx, ms, rescue);
      DefaultReboots(ctx, ms, rescue, cl, [], 0, 1);
    } else {
      EntryFails(ctx, ms, rescue, cl, plan, s);
    }
  }

  lemma DefaultArm(plan: Plan, cl: Client)
    ensures ArmOutcome(plan, cl, [], Nothing) == PlanOutcome(plan, cl)
  {
  }

  lemma EntryFails(ctx: Context, ms: seq<Machine>, rescue: string -> bool, cl: Client, plan: Plan, s: string)
    requires |ms| >= 2 && LabelOf(ms[1]) == LabelOf(ms[0]) + s && s in SUFFIXES[3..7]
    requires PlanOf(ctx, ms[0], rescue(ms[0].mac)) == plan && plan.KernelPlan?
    requires FirstMatch(ms, cl) == At(1) && cl.buildarch == "x86_64" && cl.dhcpWorks
    ensures Reaches(Script(ctx, ms, rescue), cl, Start([]), Halted(Rebooted))
  {
    hide Script, Reaches, LabelOf, FirstMatch, BlockOf, BlockStart, PlanOf;
    KernelBlockLines(LabelOf(ms[0]), plan.kernel, plan.initrd);
    var k := if s == SUFFIXES[3] then 23 else if s == SUFFIXES[4] then 26 else if s == SUFFIXES[5] then 29 else 32;
    EntryReboots(ctx, ms, rescue, cl, k);
  }

  lemma NothingAbove(ctx: Context, ms: seq<Machine>, rescue: string -> bool)
    requires ms != []
    ensures ClearAbove(ctx, ms, rescue, 0)
  {
  }

  lemma DebianIsUnreachable(ctx: Context, mac: string, cl: Client)
    requires cl.fetchable == {NETBOOT}
    ensures PlanOutcome(DebianPlan(ctx, mac, "bookworm"), cl) == Rebooted
  {
    assert DebianPlan(ctx, mac, "bookworm").kernel.url[4] == ':' && NETBOOT[4] == 's';
  }

  lemma FailIsClear(ctx: Context, ms: seq<Machine>, rescue: string -> bool)
    requires |ms| >= 2 && LabelOf(ms[1]) == LabelOf(ms[0]) + "_fail"
    ensures EntryClear(ctx, ms, rescue, 1)
  {
    hide BlockOf, PlanOf, LabelOf, Labels;
    var l := LabelOf(ms[0]);
    forall x | x in Labels(Block(ctx, ms[0], rescue(ms[0].mac))) ensures x != l + "_fail" {
      DefinedLabel(l, PlanOf(ctx, ms[0], rescue(ms[0].mac)), x);
      var s :| s in SUFFIXES && x == l + s;
      assert |s| != 5 || s[1] == 'b';
      assert |l + s| == |l| + |s| && (|s| == 5 ==> (l + s)[|l| + 1] == 'b') && (l + "_fail")[|l| + 1] == 'f';
    }
  }

  /** The second machine's label is that of the shell section of the first: after a shell its client
      is offered the first machine's menu. */
  lemma EntryShells(ctx: Context, ms: seq<Machine>, rescue: string -> bool, cl: Client)
    requires |ms| >= 2 && LabelOf(ms[1]) == LabelOf(ms[0]) + "_shell" && FirstMatch(ms, cl) == At(1)
    requires ClearAbove(ctx, ms, rescue, 0) && cl.buildarch == "x86_64" && cl.dhcpWorks
    ensures Reaches(Script(ctx, ms, rescue), cl, Start([]), Halted(PlanOutcome(PlanOf(ctx, ms[0], rescue(ms[0].mac)), cl)))
  {
    hide Script, BlockOf, PlanOf, LabelOf, FindLabel, PlanOutcome, BlockStart, Reaches, ClearAbove, FirstMatch, Placed, FooterPlaced;
    var p, l, plan := Script(ctx, ms, rescue), LabelOf(ms[0]), PlanOf(ctx, ms[0], rescue(ms[0].mac));
    var o := BlockStart(ctx, ms, rescue, 0);
    var end := Halted(PlanOutcome(plan, cl));
    RunToBlock(ctx, ms, rescue, cl, []);
    BlockIsPlaced(ctx, ms, rescue, 0);
    FooterIsPlaced(ctx, ms, rescue);
    MenuTargets(p, o, l, plan);
    var s := Start([]).(pc := o + 10);
    RunShell(p, cl, o, l, plan, s);
    DefaultArm(plan, cl);
    RunArm(p, cl, o, |p| - 12, l, plan, s.(pc := o), Nothing);
    ReachesTrans(p, cl, s, s.(pc := o), end);
    ReachesTrans(p, cl, Start([]), s, end);
  }

  /** The second machine's label is that of an error block of the first. */
  lemma EntryReboots(ctx: Context, ms: seq<Machine>, rescue: string -> bool, cl: Client, k: nat)
    requires |ms| >= 2 && FirstMatch(ms, cl) == At(1) && cl.buildarch == "x86_64" && cl.dhcpWorks
    requires var b := Block(ctx, ms[0], rescue(ms[0].mac));
      k + 2 < |b| && b[k] == Label(LabelOf(ms[1])) && b[k + 1].Quiet? && b[k + 2] == Reboot
    ensures Reaches(Script(ctx, ms, rescue), cl, Start([]), Halted(Rebooted))
  {
    hide Script, Block, LabelOf, FindLabel, BlockStart, Reaches, FirstMatch;
    var p, o, b := Script(ctx, ms, rescue), BlockStart(ctx, ms, rescue, 0), Block(ctx, ms[0], rescue(ms[0].mac));
    RunToBlock(ctx, ms, rescue, cl, []);
    OwnLabel(ctx, ms, rescue, 0, k);
    BlockStands(ctx, ms, rescue, 0);
    assert p[o + k] == b[k] && p[o + (k + 1)] == b[k + 1] && p[o + (k + 2)] == b[k + 2];
    var s := Start([]).(pc := o + k);
    RunStop(p, cl, s);
    ReachesTrans(p, cl, Start([]), s, Halted(Rebooted));
  }

  /** For one choice of targets shadowing may do no harm: with two machines of one label and one plan
      the script still always means the lookup. */
  lemma TwinsAreFine(ctx: Context, ms: seq<Machine>, rescue: string -> bool, cl: Client, choices: seq<Choice>)
    requires |ms| == 2 && LabelOf(ms[0]) == LabelOf(ms[1])
    requires PlanOf(ctx, ms[0], rescue(ms[0].mac)) == PlanOf(ctx, ms[1], rescue(ms[1].mac))
    ensures !Unshadowed(ctx, ms, rescue)
    ensures Reaches(Script(ctx, ms, rescue), cl, Start(choices), Halted(Meaning(ctx, ms, rescue, cl, choices)))
  {
    hide Script, BlockOf, PlanOf, LabelOf, FindLabel, ArmOutcome, BlockStart, Reaches, FirstMatch, NetbootOutcome;
    var p, l, plan := Script(ctx, ms, rescue), LabelOf(ms[0]), PlanOf(ctx, ms[0], rescue(ms[0].mac));
    TwinsShadow(l, plan);
    assert l in Labels(Block(ctx, ms[0], rescue(ms[0].mac))) && NamesIn(Block(ctx, ms[1], rescue(ms[1].mac)), l);
    assert !ClearAbove(ctx, ms, rescue, 1);
    RunToBlock(ctx, ms, rescue, cl, choices);
    if cl.buildarch != "arm64" && cl.buildarch != "arm32" && cl.dhcpWorks && FirstMatch(ms, cl).At? {
      EntryIsUnshadowed(ctx, ms, rescue, 0);
      var t := Start(choices).(pc := BlockStart(ctx, ms, rescue, 0));
      RunBlock(ctx, ms, rescue, cl, choices, 0, t);
      ReachesTrans(p, cl, Start(choices), t, Halted(ArmOutcome(plan, cl, choices, Nothing)));
    }
  }

  lemma TwinsShadow(l: string, plan: Plan)
    ensures l in Labels(BlockOf(l, plan)) && NamesIn(BlockOf(l, plan), l)
  {
    hide BlockOf, Arm;
    HeadLines(l, plan);
    var b := BlockOf(l, plan);
    assert b[0] in b && b[13] in b && l in Named(b[13]);
  }

  // ----- the list is the fleet the script is rendered for -----

  function MapOf(ms: seq<Machine>): map<string, Profile> {
    if ms == [] then map[] else MapOf(ms[..|ms| - 1])[ms[|ms| - 1].mac := ms[|ms| - 1].profile]
  }

  lemma {:induction false} MapIsListed(ms: seq<Machine>)
    requires forall i, j | 0 <= i < j < |ms| :: ms[i].mac != ms[j].mac
    ensures IsListing(MapOf(ms), ms)
    decreases |ms|
  {
    if ms != [] {
      var last := |ms| - 1;
      MapIsListed(ms[..last]);
      assert ms == ms[..last] + [ms[last]];
    }
  }

  /** Machines listed by ascending MAC are what RenderDispatch makes of their map. */
  lemma ArrangedIsByMac(macs: seq<string>, ms: seq<Machine>)
    requires MacList(macs) && |ms| == |macs| && forall k | 0 <= k < |ms| :: ms[k].mac == macs[k]
    ensures ByMac(MapOf(ms)) == ms
  {
    hide Text.Less, Mac.IsCanonical, ByMac;
    forall i, j | 0 <= i < j < |ms| ensures ms[i].mac != ms[j].mac { Text.LessIsTotal(macs[i], macs[j]); }
    MapIsListed(ms);
    ByMacIsDetermined(MapOf(ms), ms);
    AscendingUnique(MacKey, ByMac(MapOf(ms)), ms);
  }
}
