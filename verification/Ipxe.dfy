/** The part of iPXE's script language that the dispatch script uses, with an interpreter.
    A failing iseq just skips its goto, as the comments beside the generated table rely on. */
module Ipxe {

  datatype Kernel = Kernel(url: string, args: seq<string>)

  datatype Ins =
    | Quiet(what: string)                     // echo, sleep, set, comments and phone-home chains
    | Label(name: string)
    | IseqArch(arch: string, target: string)
    | IseqMac(nic: nat, mac: string, target: string)
    | Goto(target: string)
    | DhcpOr(target: string)
    | Menu
    | Item(target: string)
    | Choose(default: string, variable: string)
    | GotoVar(variable: string)
    | Shell
    | ImgFree
    | FetchKernel(kernel: Kernel, target: string)
    | FetchInitrd(url: string, target: string)
    | BootOr(target: string)
    | ChainOr(url: string, target: string)
    | Reboot

  /** What the person at the console does at a menu. */
  datatype Choice = Press(item: nat) | Timeout | Interrupt

  /** The machine running the script: its NICs' MACs in hexhyp form and what works for it. */
  datatype Client = Client(
    buildarch: string,
    macs: seq<string>,
    dhcpWorks: bool,
    fetchable: set<string>,
    bootWorks: bool)

  datatype Image = KernelImage(kernel: Kernel) | InitrdImage(url: string)

  datatype Outcome =
    | Booted(images: seq<Image>)
    | Chained(url: string)
    | Rebooted
    | Stopped           // the script ended or a command failed with no alternative

  /** choices is what will be answered to the menus still to come; then they time out. */
  datatype State =
    | Running(pc: nat, vars: map<string, string>, menu: seq<string>, images: seq<Image>, choices: seq<Choice>)
    | Halted(outcome: Outcome)

  datatype Found = NotFound | At(index: nat)

  /** goto takes the first line of the script that defines the label. */
  function FindLabel(p: seq<Ins>, l: string): (r: Found)
    ensures r.At? ==> r.index < |p| && p[r.index] == Label(l) && forall k | 0 <= k < r.index :: p[k] != Label(l)
    ensures r.NotFound? ==> forall k | 0 <= k < |p| :: p[k] != Label(l)
  {
    if p == [] then NotFound
    else if p[0] == Label(l) then At(0)
    else match FindLabel(p[1..], l)
      case NotFound => NotFound
      case At(k) => At(k + 1)
  }

  function Jump(p: seq<Ins>, s: State, l: string): State
    requires s.Running?
  {
    match FindLabel(p, l)
    case NotFound => Halted(Stopped)
    case At(k) => s.(pc := k)
  }

  function Step(p: seq<Ins>, cl: Client, s: State): State
  {
    if s.Halted? then s
    else if s.pc >= |p| then Halted(Stopped)
    else
      var next := s.(pc := s.pc + 1);
      match p[s.pc]
      case Quiet(_) => next
      case Label(_) => next
      case IseqArch(arch, l) => if cl.buildarch == arch then Jump(p, s, l) else next
      case IseqMac(nic, mac, l) => if nic < |cl.macs| && cl.macs[nic] == mac then Jump(p, s, l) else next
      case Goto(l) => Jump(p, s, l)
      case DhcpOr(l) => if cl.dhcpWorks then next else Jump(p, s, l)
      case Menu => next.(menu := [])
      case Item(l) => next.(menu := s.menu + [l])
      case Choose(default, v) =>
        (match (if s.choices == [] then Timeout else s.choices[0])
         case Press(i) =>
           next.(vars := s.vars[v := if i < |s.menu| then s.menu[i] else default], choices := s.choices[1..])
         case Timeout =>
           next.(vars := s.vars[v := default], choices := if s.choices == [] then [] else s.choices[1..])
         case Interrupt => next.(choices := s.choices[1..]))
      case GotoVar(v) => if v in s.vars then Jump(p, s, s.vars[v]) else Halted(Stopped)
      case Shell => next
      case ImgFree => next.(images := [])
      case FetchKernel(k, l) => if k.url in cl.fetchable then next.(images := s.images + [KernelImage(k)]) else Jump(p, s, l)
      case FetchInitrd(url, l) => if url in cl.fetchable then next.(images := s.images + [InitrdImage(url)]) else Jump(p, s, l)
      case BootOr(l) => if s.images != [] && cl.bootWorks then Halted(Booted(s.images)) else Jump(p, s, l)
      case ChainOr(url, l) => if url in cl.fetchable then Halted(Chained(url)) else Jump(p, s, l)
      case Reboot => Halted(Rebooted)
  }

  function Steps(p: seq<Ins>, cl: Client, s: State, n: nat): State
    decreases n
  {
    if n == 0 then s else Steps(p, cl, Step(p, cl, s), n - 1)
  }

  function Start(choices: seq<Choice>): (s: State)
    ensures s.Running?
  {
    Running(0, map[], [], [], choices)
  }

  ghost predicate Reaches(p: seq<Ins>, cl: Client, s: State, t: State) {
    exists n: nat :: Steps(p, cl, s, n) == t
  }

  lemma {:induction false} StepsAdd(p: seq<Ins>, cl: Client, s: State, m: nat, n: nat)
    ensures Steps(p, cl, s, m + n) == Steps(p, cl, Steps(p, cl, s, m), n)
    decreases m
  {
    if m > 0 { StepsAdd(p, cl, Step(p, cl, s), m - 1, n); }
  }

  lemma ReachesTrans(p: seq<Ins>, cl: Client, s: State, t: State, u: State)
    requires Reaches(p, cl, s, t) && Reaches(p, cl, t, u)
    ensures Reaches(p, cl, s, u)
  {
    var m: nat :| Steps(p, cl, s, m) == t;
    var n: nat :| Steps(p, cl, t, n) == u;
    StepsAdd(p, cl, s, m, n);
  }

  lemma ReachesStep(p: seq<Ins>, cl: Client, s: State, u: State)
    requires Reaches(p, cl, Step(p, cl, s), u)
    ensures Reaches(p, cl, s, u)
  {
    assert Steps(p, cl, s, 1) == Steps(p, cl, Step(p, cl, s), 0);
    ReachesTrans(p, cl, s, Step(p, cl, s), u);
  }

  /** A list of states each of which is the step of the one before it. */
  lemma {:induction false} Trace(p: seq<Ins>, cl: Client, ss: seq<State>)
    requires ss != [] && forall i | 0 <= i < |ss| - 1 :: Step(p, cl, ss[i]) == ss[i + 1]
    ensures Reaches(p, cl, ss[0], ss[|ss| - 1])
    decreases |ss|
  {
    if |ss| == 1 {
      assert Steps(p, cl, ss[0], 0) == ss[0];
    } else {
      assert forall i | 0 <= i < |ss[1..]| - 1 :: Step(p, cl, ss[1..][i]) == ss[1..][i + 1];
      Trace(p, cl, ss[1..]);
      ReachesStep(p, cl, ss[0], ss[|ss| - 1]);
    }
  }

  /** A run has at most one outcome. */
  lemma OneOutcome(p: seq<Ins>, cl: Client, s: State, a: Outcome, b: Outcome)
    requires Reaches(p, cl, s, Halted(a)) && Reaches(p, cl, s, Halted(b))
    ensures a == b
  {
    var m: nat :| Steps(p, cl, s, m) == Halted(a);
    var n: nat :| Steps(p, cl, s, n) == Halted(b);
    if m <= n {
      StepsAdd(p, cl, s, m, n - m);
      StaysHalted(p, cl, a, n - m);
    } else {
      StepsAdd(p, cl, s, n, m - n);
      StaysHalted(p, cl, b, m - n);
    }
  }

  lemma {:induction false} StaysHalted(p: seq<Ins>, cl: Client, a: Outcome, n: nat)
    ensures Steps(p, cl, Halted(a), n) == Halted(a)
  {
    if n > 0 { StaysHalted(p, cl, a, n - 1); }
  }

  /** The labels a piece of script defines. */
  ghost function Labels(p: seq<Ins>): set<string> {
    set i | i in p && i.Label? :: i.name
  }

  /** The labels it names: in gotos, in alternatives and as menu items. */
  function Named(i: Ins): set<string> {
    match i
    case IseqArch(_, l) => {l}
    case IseqMac(_, _, l) => {l}
    case Goto(l) => {l}
    case DhcpOr(l) => {l}
    case Item(l) => {l}
    case Choose(l, _) => {l}
    case FetchKernel(_, l) => {l}
    case FetchInitrd(_, l) => {l}
    case BootOr(l) => {l}
    case ChainOr(_, l) => {l}
    case _ => {}
  }

  ghost predicate NamesIn(p: seq<Ins>, l: string) {
    exists i :: i in p && l in Named(i)
  }

  lemma LabelsConcat(p: seq<Ins>, q: seq<Ins>)
    ensures Labels(p + q) == Labels(p) + Labels(q)
  {
    assert forall i :: i in p + q <==> i in p || i in q;
  }

  lemma FindIn(p: seq<Ins>, a: seq<Ins>, b: seq<Ins>, c: seq<Ins>, k: nat, l: string)
    requires p == a + b + c && k < |b| && b[k] == Label(l)
    requires l !in Labels(a) && forall j | 0 <= j < k :: b[j] != Label(l)
    ensures FindLabel(p, l) == At(|a| + k)
  {
    assert p[|a| + k] == Label(l);
    forall j | 0 <= j < |a| + k ensures p[j] != Label(l) {
      if j < |a| { assert p[j] == a[j] && a[j] in a; } else { assert p[j] == b[j - |a|]; }
    }
  }
}
