/** What the dispatch script is for, said without the script: find the machine, offer its menu,
    boot its plan. */
module DispatchMeaning {
  import opened FleetTypes
  import opened Ipxe
  import opened Dispatch
  import Mac

  /** One of net0..net3 carries the machine's MAC. */
  predicate Matches(cl: Client, m: Machine) {
    exists nic | 0 <= nic < 4 :: HasNic(cl, nic, Mac.Hyphenated(m.mac))
  }

  predicate HasNic(cl: Client, nic: nat, mac: string) {
    nic < |cl.macs| && cl.macs[nic] == mac
  }

  /** The first machine of the list that the client is. */
  function FirstMatch(ms: seq<Machine>, cl: Client): (r: Found)
    ensures r.At? ==> r.index < |ms| && Matches(cl, ms[r.index]) && forall i | 0 <= i < r.index :: !Matches(cl, ms[i])
    ensures r.NotFound? ==> forall i | 0 <= i < |ms| :: !Matches(cl, ms[i])
  {
    if ms == [] then NotFound
    else if Matches(cl, ms[0]) then At(0)
    else match FirstMatch(ms[1..], cl)
      case NotFound => NotFound
      case At(k) => At(k + 1)
  }

  /** The netboot.xyz menu, or a reboot when it cannot be reached. */
  function NetbootOutcome(cl: Client): Outcome {
    if NETBOOT in cl.fetchable then Chained(NETBOOT) else Rebooted
  }

  function PlanOutcome(plan: Plan, cl: Client): Outcome {
    match plan
    case KernelPlan(k, initrd) =>
      if k.url in cl.fetchable && initrd in cl.fetchable && cl.bootWorks
      then Booted([KernelImage(k), InitrdImage(initrd)]) else Rebooted
    case ChainPlan(url) => if url in cl.fetchable then Chained(url) else Rebooted
    case UnknownPlan => NetbootOutcome(cl)
  }

  /** What a machine's menu ends up selecting. An interrupted choose leaves the previous selection
      in place, which is none the first time and the shell after a visit to the shell. */
  datatype Selected = Nothing | BootTarget | NetbootMenu | IpxeShell

  function Selection(choices: seq<Choice>, last: Selected): Selected {
    if choices == [] then BootTarget
    else match choices[0]
      case Press(i) => if i == 1 then NetbootMenu else if i == 2 then IpxeShell else BootTarget
      case Timeout => BootTarget
      case Interrupt => last
  }

  function ArmOutcome(plan: Plan, cl: Client, choices: seq<Choice>, last: Selected): Outcome
    decreases |choices|
  {
    match Selection(choices, last)
    case Nothing => Stopped
    case BootTarget => PlanOutcome(plan, cl)
    case NetbootMenu => NetbootOutcome(cl)
    case IpxeShell => if choices == [] then Stopped else ArmOutcome(plan, cl, choices[1..], IpxeShell)
  }

  function Meaning(ctx: Context, ms: seq<Machine>, rescue: string -> bool, cl: Client, choices: seq<Choice>): Outcome {
    if cl.buildarch == "arm64" || cl.buildarch == "arm32" || !cl.dhcpWorks then Rebooted
    else match FirstMatch(ms, cl)
      case NotFound => NetbootOutcome(cl)
      case At(j) => ArmOutcome(PlanOf(ctx, ms[j], rescue(ms[j].mac)), cl, choices, Nothing)
  }

  /** No earlier block defines a label that block j names. */
  ghost predicate ClearAbove(ctx: Context, ms: seq<Machine>, rescue: string -> bool, j: nat)
    requires j < |ms|
  {
    forall i, l | 0 <= i < j && l in Labels(Block(ctx, ms[i], rescue(ms[i].mac))) ::
      !NamesIn(Block(ctx, ms[j], rescue(ms[j].mac)), l)
  }

  /** No block defines a label that a later machine's block names. labelOf is not injective, so
      two machines named kube-1 and kube_1 break this, and so do x after x_boot, and x_fail after
      x. */
  ghost predicate Unshadowed(ctx: Context, ms: seq<Machine>, rescue: string -> bool) {
    forall j: nat | j < |ms| :: ClearAbove(ctx, ms, rescue, j)
  }
}
