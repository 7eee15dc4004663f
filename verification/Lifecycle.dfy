/** Intents, DHCP requests, install reports, reloads and time, as one state machine. */
module Lifecycle {
  import opened FleetTypes
  import opened Offer
  import opened Tracker
  import FleetFile
  import Mac
  import P = Pending

  datatype Settings = Settings(ttl: int, ip: string, port: int)

  /** What is under way. checks and cancels are notePhase calls: for `checks` a completed install was
      noted and the intent is still to be looked at, for `cancels` it was seen to be an install. members
      is the list a reload took and is still to prune by, deletes are machines whose intent is still to
      be cancelled. */
  datatype World = World(
    st: Store,
    entries: P.Entries,
    stages: map<string, Stage>,
    now: int,
    checks: multiset<string>,
    cancels: multiset<string>,
    members: Maybe<set<string>>,
    deletes: multiset<string>)

  /** What can happen. MACs are canonical: every handler canonicalises before it acts. */
  datatype Action =
    | SetIntent(mac: string, intent: Maybe<P.Action>)   // null cancels
    | Dhcp(req: Request)
    | Report(mac: string, event: Event)                 // notePhase, first section: the tracker
    | Look(mac: string)                                 // second: the intent of a completed install
    | Clear(mac: string)                                // third: cancel it if it was an install
    | ReloadFleet(st: Store)
    | ListMembers                                       // after a reload: the list to prune by
    | Prune                                             // RetainOnly by that list
    | DeleteMachine(mac: string)                        // the handler's first section: the fleet
    | CancelDeleted(mac: string)                        // second: the intent
    | SaveMachine(mac: string, profile: Profile)
    | Tick(elapsed: nat)

  function StatusOf(s: Settings, w: World, mac: string): P.Status {
    match Mac.CanonicalMac(mac)
    case Bad => P.None
    case Good(canon) => P.StatusAt(w.entries, s.ttl, canon, w.now)
  }

  function StageOf(w: World, mac: string): Stage {
    match Mac.CanonicalMac(mac)
    case Bad => Unseen
    case Good(canon) => if canon in w.stages then w.stages[canon] else Unseen
  }

  /** main's wiring of the proxyDHCP configuration. */
  function ConfigOf(s: Settings, w: World): Config {
    Config(Present(s.ip), s.port, "/boot.ipxe", "", Present(w.st),
           Present((mac: string) => StatusOf(s, w, mac).Live?), Present((mac: string) => StageOf(w, mac)))
  }

  /** main's wiring of the dispatch script's rescue test. */
  predicate RescueArmed(s: Settings, w: World, mac: string) {
    var st := StatusOf(s, w, mac);
    st.Live? && st.action == P.Rescue
  }

  predicate Named(w: World, mac: string) {
    FleetFile.Lookup(w.st, mac).name != ""
  }

  function Noted(w: World, mac: string, e: Event): World {
    match Mac.CanonicalMac(mac)
    case Bad => w
    case Good(canon) => w.(stages := w.stages[canon := Advance(StageOf(w, canon), e)])
  }

  predicate LiveInstall(s: Settings, w: World, mac: string) {
    var st := P.StatusAt(w.entries, s.ttl, mac, w.now);
    st.Live? && st.action == P.Install
  }

  function Next(s: Settings, w: World, a: Action): World {
    match a
    case SetIntent(mac, intent) =>
      if !Named(w, mac) then w
      else if intent.Present? then w.(entries := w.entries[mac := P.Entry(intent.value, w.now)])
      else w.(entries := w.entries - {mac})
    case Dhcp(req) =>
      var d := Decide(req, ConfigOf(s, w));
      if !d.Sent? then w
      else Noted(w, req.mac, if d.reply.phase == IpxeScript then IpxeDhcp else FirmwareDhcp)
    case Report(mac, e) =>
      var w' := Noted(w, mac, e);
      if e == InstallerDone then w'.(checks := w.checks + multiset{mac}) else w'
    case Look(mac) =>
      if mac !in w.checks then w
      else
        var w' := w.(checks := w.checks - multiset{mac});
        if LiveInstall(s, w, mac) then w'.(cancels := w.cancels + multiset{mac}) else w'
    case Clear(mac) =>
      if mac in w.cancels then w.(cancels := w.cancels - multiset{mac}, entries := w.entries - {mac}) else w
    case ReloadFleet(st) => w.(st := st)
    case ListMembers => w.(members := Present(w.st.machines.Keys))
    case Prune =>
      if w.members.Absent? then w
      else w.(members := Absent, entries := map m | m in w.entries && m in w.members.value :: w.entries[m])
    case DeleteMachine(mac) =>
      if mac in w.st.machines
      then w.(st := w.st.(machines := w.st.machines - {mac}), deletes := w.deletes + multiset{mac})
      else w
    case CancelDeleted(mac) =>
      if mac in w.deletes then w.(deletes := w.deletes - multiset{mac}, entries := w.entries - {mac}) else w
    case SaveMachine(mac, p) => w.(st := w.st.(machines := w.st.machines[mac := p]))
    case Tick(elapsed) => w.(now := w.now + elapsed)
  }

  function After(s: Settings, w: World, run: seq<Action>): World
    decreases |run|
  {
    if run == [] then w else Next(s, After(s, w, run[..|run| - 1]), run[|run| - 1])
  }

  /** Step i of the run queued an intent for mac. */
  ghost predicate Queues(s: Settings, w: World, run: seq<Action>, i: nat, mac: string) {
    i < |run| && run[i].SetIntent? && run[i].mac == mac && run[i].intent.Present? && Named(After(s, w, run[..i]), mac)
  }

  /** In state w, action a takes back whatever intent mac has. */
  predicate Revokes(s: Settings, w: World, a: Action, mac: string) {
    match a
    case SetIntent(m, intent) => m == mac && intent.Absent? && Named(w, mac)
    case Clear(m) => m == mac && mac in w.cancels
    case Prune => w.members.Present? && mac !in w.members.value
    case CancelDeleted(m) => m == mac && mac in w.deletes
    case _ => false
  }

  /** Step i queued an intent for mac that nothing has taken back since. */
  ghost predicate Standing(s: Settings, w: World, run: seq<Action>, i: nat, mac: string) {
    Queues(s, w, run, i, mac) && forall k | i < k < |run| :: !Revokes(s, After(s, w, run[..k]), run[k], mac)
  }

  /** ... and it is the entry e. */
  ghost predicate StandingAs(s: Settings, w: World, run: seq<Action>, i: nat, mac: string, e: P.Entry) {
    Standing(s, w, run, i, mac) && After(s, w, run[..i]).now == e.requestedAt && run[i].intent.value == e.action
  }

  lemma StepBack(s: Settings, w: World, run: seq<Action>, i: nat, mac: string)
    requires run != [] && i < |run| - 1
    ensures var init := run[..|run| - 1];
      Standing(s, w, run, i, mac) <==>
        Standing(s, w, init, i, mac) && !Revokes(s, After(s, w, init), run[|run| - 1], mac)
  {
    hide After, Revokes, Named;
    var init := run[..|run| - 1];
    assert forall k | 0 <= k <= |init| :: init[..k] == run[..k];
  }

  lemma {:induction false} ClockNeverGoesBack(s: Settings, w: World, run: seq<Action>, i: nat)
    requires i <= |run|
    ensures After(s, w, run[..i]).now <= After(s, w, run).now
    decreases |run|
  {
    hide Next;
    if i == |run| {
      assert run[..i] == run;
    } else {
      ClockNeverGoesBack(s, w, run[..|run| - 1], i);
      assert run[..|run| - 1][..i] == run[..i];
      ClockStep(s, After(s, w, run[..|run| - 1]), run[|run| - 1]);
    }
  }

  lemma ClockStep(s: Settings, w: World, a: Action)
    ensures w.now <= Next(s, w, a).now
  {
    hide Decide, ConfigOf, FleetFile.Lookup, Mac.CanonicalMac, LiveInstall;
  }

  /** The effect of one step on the intent of one machine. */
  lemma EntryStep(s: Settings, w: World, a: Action, mac: string)
    ensures var w' := Next(s, w, a);
      if a.SetIntent? && a.mac == mac && a.intent.Present? && Named(w, mac)
      then mac in w'.entries && w'.entries[mac] == P.Entry(a.intent.value, w.now)
      else if Revokes(s, w, a, mac) then mac !in w'.entries
      else (mac in w'.entries <==> mac in w.entries) && (mac in w.entries ==> w'.entries[mac] == w.entries[mac])
  {
    hide Decide, ConfigOf, FleetFile.Lookup, Mac.CanonicalMac, LiveInstall;
  }

  /** The store holds exactly the intents that are still standing. */
  lemma {:induction false} EntriesAreStanding(s: Settings, w: World, run: seq<Action>, mac: string)
    requires w.entries == map[]
    ensures var e := After(s, w, run).entries;
      mac in e ==> exists i: nat :: StandingAs(s, w, run, i, mac, e[mac])
    ensures var e := After(s, w, run).entries;
      forall i: nat | Standing(s, w, run, i, mac) :: mac in e && e[mac].requestedAt >= After(s, w, run[..i]).now
    decreases |run|
  {
    hide Next, Revokes, Named;
    if run != [] {
      var last := |run| - 1;
      var init := run[..last];
      var v, e := After(s, w, init), After(s, w, run).entries;
      EntriesAreStanding(s, w, init, mac);
      EntryStep(s, v, run[last], mac);
      assert forall i | 0 <= i <= last :: init[..i] == run[..i];
      if mac in e {
        if Queues(s, w, run, last, mac) {
          assert run[..last] == init;
          assert StandingAs(s, w, run, last, mac, e[mac]);
        } else {
          assert mac in v.entries;
          var i: nat :| StandingAs(s, w, init, i, mac, v.entries[mac]);
          StepBack(s, w, run, i, mac);
          assert StandingAs(s, w, run, i, mac, e[mac]);
        }
      }
      forall i: nat | Standing(s, w, run, i, mac) ensures mac in e && e[mac].requestedAt >= After(s, w, run[..i]).now {
        ClockNeverGoesBack(s, w, init, if i < last then i else last);
        if i < last {
          StepBack(s, w, run, i, mac);
        } else {
          assert run[..i] == init;
        }
      }
    }
  }

  /** Whole-run gating: at any point of any run, a firmware-stage request of a named machine is
      answered if and only if some earlier step queued an intent for it, less than ttl ago when
      intents expire, that no cancel, completed install, prune or delete has taken back since. */
  lemma FirmwareNeedsStandingIntent(s: Settings, w: World, run: seq<Action>, req: Request)
    requires w.entries == map[] && 0 < s.port <= 65535 && Mac.IsCanonical(req.mac)
    requires FromPxe(req) && "iPXE" !in req.userClasses
    ensures var v := After(s, w, run);
      Named(v, req.mac) ==>
        (Decide(req, ConfigOf(s, v)).Sent? <==>
         exists i: nat :: Standing(s, w, run, i, req.mac) && (s.ttl <= 0 || v.now < After(s, w, run[..i]).now + s.ttl))
  {
    hide After, Standing, FleetFile.Lookup, Mac.CanonicalMac, Mac.IsCanonical, IsPxe;
    var v := After(s, w, run);
    Mac.CanonicalMacFixed(req.mac);
    FirmwareAnswer(req, ConfigOf(s, v));
    EntriesAreStanding(s, w, run, req.mac);
  }

  // ----- the three sections of notePhase -----

  /** A call that nothing interrupts: installer-done takes back an install but never a rescue, other
      reports take back nothing, and other machines are left alone. */
  lemma ReportsKeepRescue(s: Settings, w: World, mac: string, e: Event)
    requires mac !in w.checks && mac !in w.cancels
    ensures var v := After(s, w, [Report(mac, e), Look(mac), Clear(mac)]);
      && v.entries == (if e == InstallerDone && LiveInstall(s, w, mac) then w.entries - {mac} else w.entries)
      && v.checks == w.checks && v.cancels == w.cancels
  {
    hide After, Decide, ConfigOf, FleetFile.Lookup, Mac.CanonicalMac, LiveInstall, Noted;
    Three(s, w, Report(mac, e), Look(mac), Clear(mac));
    var w1 := Next(s, w, Report(mac, e));
    ReportStep(s, w, mac, e);
    var w2 := Next(s, w1, Look(mac));
    assert w2.entries == w.entries && w2.checks == w.checks;
    assert mac in w2.cancels <==> e == InstallerDone && LiveInstall(s, w, mac);
  }

  lemma ReportStep(s: Settings, w: World, mac: string, e: Event)
    ensures var v := Next(s, w, Report(mac, e));
      && v.entries == w.entries && v.now == w.now && v.cancels == w.cancels
      && v.checks == (if e == InstallerDone then w.checks + multiset{mac} else w.checks)
      && LiveInstall(s, v, mac) == LiveInstall(s, w, mac)
  {
    hide Mac.CanonicalMac, StageOf;
  }

  lemma Three(s: Settings, w: World, a: Action, b: Action, c: Action)
    ensures After(s, w, [a, b, c]) == Next(s, Next(s, Next(s, w, a), b), c)
  {
    hide Next;
    assert [a, b, c][..2] == [a, b] && [a, b][..1] == [a] && [a][..0] == [];
    assert After(s, w, [a]) == Next(s, After(s, w, []), a);
    assert After(s, w, [a, b]) == Next(s, After(s, w, [a]), b);
  }

  lemma Unfold(s: Settings, w: World, run: seq<Action>, a: Action)
    ensures After(s, w, run + [a]) == Next(s, After(s, w, run), a)
  {
    assert (run + [a])[..|run|] == run;
  }

  predicate AboutReport(a: Action, mac: string) {
    (a.Report? || a.Look? || a.Clear?) && a.mac == mac
  }

  lemma {:induction false} CancelsStay(s: Settings, w: World, run: seq<Action>, mac: string)
    requires forall a | a in run :: !AboutReport(a, mac)
    ensures After(s, w, run).cancels[mac] == w.cancels[mac]
    decreases |run|
  {
    hide Next, AboutReport;
    if run != [] {
      CancelsStay(s, w, run[..|run| - 1], mac);
      CancelStep(s, After(s, w, run[..|run| - 1]), run[|run| - 1], mac);
    }
  }

  /** With anything else in between, a rescue that is there at the third section survives it exactly
      when the second saw no live install. */
  lemma RescueQueuedBetween(s: Settings, w: World, mac: string, between: seq<Action>)
    requires mac in w.checks && mac !in w.cancels && forall a | a in between :: !AboutReport(a, mac)
    ensures var found := After(s, Next(s, w, Look(mac)), between);
      mac in found.entries && found.entries[mac].action == P.Rescue ==>
        (mac in Next(s, found, Clear(mac)).entries <==> !LiveInstall(s, w, mac))
  {
    CancelsStay(s, Next(s, w, Look(mac)), between, mac);
    hide After, LiveInstall;
  }

  /** And that does happen: a run that loses a rescue queued between the sections. */
  lemma RescueLost(s: Settings, w: World, mac: string)
    requires Named(w, mac) && mac !in w.cancels
    ensures var run := [SetIntent(mac, Present(P.Install)), Report(mac, InstallerDone), Look(mac), SetIntent(mac, Present(P.Rescue))];
      && Standing(s, w, run, 3, mac) && mac in After(s, w, run).entries
      && After(s, w, run).entries[mac].action == P.Rescue
      && mac !in After(s, w, run + [Clear(mac)]).entries
  {
    hide Next, After, Named;
    var a, b, c, d := SetIntent(mac, Present(P.Install)), Report(mac, InstallerDone), Look(mac), SetIntent(mac, Present(P.Rescue));
    Three(s, w, a, b, c);
    Unfold(s, w, [a, b, c], d);
    assert [a, b, c] + [d] == [a, b, c, d] && [a, b, c, d][..3] == [a, b, c];
    Unfold(s, w, [a, b, c, d], Clear(mac));
    InstallSeen(s, w, mac);
    RescueCleared(s, After(s, w, [a, b, c]), mac);
  }

  lemma RescueCleared(s: Settings, w: World, mac: string)
    requires Named(w, mac) && mac in w.cancels
    ensures var v := Next(s, w, SetIntent(mac, Present(P.Rescue)));
      && mac in v.entries && v.entries[mac].action == P.Rescue && mac !in Next(s, v, Clear(mac)).entries
  {
    hide FleetFile.Lookup;
  }

  lemma InstallSeen(s: Settings, w: World, mac: string)
    requires Named(w, mac)
    ensures var v := Next(s, Next(s, Next(s, w, SetIntent(mac, Present(P.Install))), Report(mac, InstallerDone)), Look(mac));
      Named(v, mac) && mac in v.cancels
  {
    hide FleetFile.Lookup, Mac.CanonicalMac;
  }

  /** Step i of the run was a look that saw a live install. */
  ghost predicate Saw(s: Settings, w: World, run: seq<Action>, i: nat, mac: string) {
    i < |run| && run[i] == Look(mac) && LiveInstall(s, After(s, w, run[..i]), mac)
  }

  lemma CancelStep(s: Settings, w: World, a: Action, mac: string)
    ensures mac in Next(s, w, a).cancels ==> mac in w.cancels || (a == Look(mac) && LiveInstall(s, w, mac))
    ensures !AboutReport(a, mac) ==> Next(s, w, a).cancels[mac] == w.cancels[mac]
  {
    hide Decide, ConfigOf, FleetFile.Lookup, Mac.CanonicalMac, LiveInstall;
  }

  lemma {:induction false} CancelsWereSeen(s: Settings, w: World, run: seq<Action>, mac: string)
    requires w.cancels == multiset{} && mac in After(s, w, run).cancels
    ensures exists i: nat :: Saw(s, w, run, i, mac)
    decreases |run|
  {
    hide Next, LiveInstall;
    var last := |run| - 1;
    var init := run[..last];
    CancelStep(s, After(s, w, init), run[last], mac);
    if mac in After(s, w, init).cancels {
      CancelsWereSeen(s, w, init, mac);
      var i: nat :| Saw(s, w, init, i, mac);
      assert init[..i] == run[..i];
      assert Saw(s, w, run, i, mac);
    } else {
      assert Saw(s, w, run, last, mac);
    }
  }

  /** An entry that was not there before was queued since. */
  lemma {:induction false} QueuedSince(s: Settings, w: World, run: seq<Action>, i: nat, mac: string)
    requires i <= |run| && mac in After(s, w, run).entries
    requires var e := After(s, w, run[..i]).entries; mac in e ==> e[mac] != After(s, w, run).entries[mac]
    ensures exists j: nat :: i <= j && Queues(s, w, run, j, mac) && run[j].intent.value == After(s, w, run).entries[mac].action
    decreases |run|
  {
    hide Next, Revokes, Named;
    assert run[..|run|] == run;
    if i < |run| {
      var last := |run| - 1;
      var init := run[..last];
      EntryStep(s, After(s, w, init), run[last], mac);
      if Queues(s, w, run, last, mac) {
        assert run[last].intent.value == After(s, w, run).entries[mac].action;
      } else {
        assert init[..i] == run[..i];
        QueuedSince(s, w, init, i, mac);
        var j: nat :| i <= j && Queues(s, w, init, j, mac) && init[j].intent.value == After(s, w, init).entries[mac].action;
        assert init[..j] == run[..j];
        assert Queues(s, w, run, j, mac);
      }
    }
  }

  /** Whole runs: a report takes a rescue back only in the race. Whenever a Clear removes a rescue,
      an earlier look had seen a live install, and the rescue was queued after that look. */
  lemma {:induction false} RescueFallsOnlyInRace(s: Settings, w: World, run: seq<Action>, mac: string)
    requires w.cancels == multiset{}
    ensures var v := After(s, w, run);
      mac in v.cancels && mac in v.entries && v.entries[mac].action == P.Rescue ==>
        exists i: nat, j: nat :: i < j && Saw(s, w, run, i, mac) && Queues(s, w, run, j, mac) && run[j].intent.value == P.Rescue
  {
    hide After, Named;
    var v := After(s, w, run);
    if mac !in v.cancels || mac !in v.entries || v.entries[mac].action != P.Rescue { return; }
    CancelsWereSeen(s, w, run, mac);
    var i: nat :| Saw(s, w, run, i, mac);
    QueuedSince(s, w, run, i, mac);
  }

  /** What an answered request is noted as: iPXE's as the iPXE stage, the firmware's as the firmware
      stage, for the MAC it came from and no other; one that is not answered is not noted. */
  lemma AnswersAreNoted(s: Settings, w: World, req: Request, canon: string)
    ensures var w' := Next(s, w, Dhcp(req));
      var was := if canon in w.stages then w.stages[canon] else Unseen;
      var sent := Decide(req, ConfigOf(s, w)).Sent?;
      && w' == w.(stages := w'.stages)
      && (sent && Mac.Denotes(req.mac, canon) ==>
            canon in w'.stages && w'.stages[canon] == Advance(was, if "iPXE" in req.userClasses then IpxeDhcp else FirmwareDhcp))
      && (!sent || !Mac.Denotes(req.mac, canon) ==>
            (canon in w'.stages <==> canon in w.stages) && (canon in w.stages ==> w'.stages[canon] == w.stages[canon]))
  {
    hide Mac.CanonicalMac, Mac.Denotes, FleetFile.Lookup, IsPxe, FirmwareReply, Url, Advance, StatusOf, Gated;
    var cfg := ConfigOf(s, w);
    Mac.CanonicalMacDenotes(req.mac);
    ClassesMean(req, cfg);
    if Mac.CanonicalMac(req.mac).Good? { Mac.CanonicalMacFixed(Mac.CanonicalMac(req.mac).mac); }
    if Decide(req, cfg).Sent? && "iPXE" !in req.userClasses { FirmwareIsHanded(req, cfg); }
  }

  /** The same for a report. */
  lemma ReportsAreNoted(s: Settings, w: World, mac: string, e: Event, canon: string)
    ensures var w' := Next(s, w, Report(mac, e));
      var was := if canon in w.stages then w.stages[canon] else Unseen;
      && w' == w.(stages := w'.stages, checks := if e == InstallerDone then w.checks + multiset{mac} else w.checks)
      && (Mac.Denotes(mac, canon) ==> canon in w'.stages && w'.stages[canon] == Advance(was, e))
      && (!Mac.Denotes(mac, canon) ==>
            (canon in w'.stages <==> canon in w.stages) && (canon in w.stages ==> w'.stages[canon] == w.stages[canon]))
  {
    hide Mac.CanonicalMac, Mac.Denotes, Advance;
    Mac.CanonicalMacDenotes(mac);
    if Mac.CanonicalMac(mac).Good? { Mac.CanonicalMacFixed(Mac.CanonicalMac(mac).mac); }
  }

  /** What was seen of one machine in a run: the reports about it, and its requests that were answered. */
  ghost function Observed(s: Settings, w: World, run: seq<Action>, canon: string): seq<Event>
    decreases |run|
  {
    if run == [] then []
    else
      var init := run[..|run| - 1];
      var rest := Observed(s, w, init, canon);
      match run[|run| - 1]
      case Report(mac, e) => if Mac.Denotes(mac, canon) then rest + [e] else rest
      case Dhcp(req) =>
        if Mac.Denotes(req.mac, canon) && Decide(req, ConfigOf(s, After(s, w, init))).Sent?
        then rest + [if "iPXE" in req.userClasses then IpxeDhcp else FirmwareDhcp]
        else rest
      case _ => rest
  }

  /** So at any point of any run a machine's stage is that of what was seen of it, in that order. */
  lemma {:induction false} StageIsObserved(s: Settings, w: World, run: seq<Action>, canon: string)
    requires w.stages == map[]
    ensures var v := After(s, w, run);
      (if canon in v.stages then v.stages[canon] else Unseen) == StageAfter(Observed(s, w, run, canon))
    decreases |run|
  {
    hide Decide, ConfigOf, Noted, Advance, Mac.Denotes, Next;
    if run != [] {
      var init, a := run[..|run| - 1], run[|run| - 1];
      var v := After(s, w, init);
      StageIsObserved(s, w, init, canon);
      var seen := Observed(s, w, init, canon);
      assert forall e :: (seen + [e])[..|seen|] == seen;
      match a
      case Report(mac, e) => ReportsAreNoted(s, v, mac, e, canon);
      case Dhcp(req) => AnswersAreNoted(s, v, req, canon);
      case _ => OthersNoteNothing(s, v, a, canon);
    }
  }

  lemma OthersNoteNothing(s: Settings, w: World, a: Action, canon: string)
    ensures !a.Report? && !a.Dhcp? ==>
              var w' := Next(s, w, a);
              (canon in w'.stages <==> canon in w.stages) && (canon in w.stages ==> w'.stages[canon] == w.stages[canon])
  {
    hide Named, Decide, Noted, LiveInstall, ConfigOf, Mac.CanonicalMac, P.StatusAt, FleetFile.Lookup, IsPxe, FirmwareReply, Url, Text.Decimal;
  }

  /** A firmware request of a named machine without a live intent is skipped, as deployed exactly when a
      finished install is the furthest that was seen of it since its last failure. */
  lemma SkippedAsDeployed(s: Settings, w: World, run: seq<Action>, req: Request, canon: string)
    requires w.stages == map[] && 0 < s.port <= 65535
    ensures var v := After(s, w, run);
      && Mac.Denotes(req.mac, canon) && FromPxe(req) && "iPXE" !in req.userClasses && Named(v, req.mac)
      && !(canon in v.entries && (s.ttl <= 0 || v.now < v.entries[canon].requestedAt + s.ttl)) ==>
        Decide(req, ConfigOf(s, v)) ==
        Skipped(if StageAfter(Observed(s, w, run, canon)) == At(InstallerDone) then AlreadyDeployed else NoPendingAction)
  {
    hide After, Observed, StageAfter, Mac.CanonicalMac, Mac.Denotes, FleetFile.Lookup, IsPxe, HandedScript, FirmwareReply;
    var v := After(s, w, run);
    StageIsObserved(s, w, run, canon);
    Mac.CanonicalMacDenotes(req.mac);
    if FromPxe(req) && "iPXE" !in req.userClasses { FirmwareAnswer(req, ConfigOf(s, v)); }
  }

  /** Two worlds with the same fleet, reports and clock, and the same intents for fleet members. */
  ghost predicate AgreeOnFleet(w: World, v: World) {
    && w.st == v.st && w.stages == v.stages && w.now == v.now
    && forall mac | mac in w.st.machines ::
         (mac in w.entries <==> mac in v.entries) && (mac in w.entries ==> w.entries[mac] == v.entries[mac])
  }

  /** Intents for machines outside the fleet change no reply. */
  lemma StaleIntentsChangeNoReply(s: Settings, w: World, v: World, req: Request)
    requires AgreeOnFleet(w, v) && w.st.defaults.name == ""
    ensures Decide(req, ConfigOf(s, w)) == Decide(req, ConfigOf(s, v))
  {
    hide Mac.CanonicalMac, IsPxe, FirmwareReply, Url;
    var cw, cv := ConfigOf(s, w), ConfigOf(s, v);
    if Known(req, cw) {
      assert HasPending(req, cw) == HasPending(req, cv);
    }
    assert Deployed(req, cw) == Deployed(req, cv);
    FirmwareReplySame(req, cw, cv);
  }

  lemma FirmwareReplySame(req: Request, c: Config, d: Config)
    requires c.ip == d.ip && c.port == d.port && c.scriptPath == d.scriptPath
    ensures ConfigOk(c) == ConfigOk(d)
    ensures ConfigOk(c) ==> FirmwareReply(req, c) == FirmwareReply(req, d) && Url(c, c.scriptPath) == Url(d, d.scriptPath)
  {
    hide Text.Decimal;
  }

  // ----- when a member's intent falls -----

  /** A reload and the prune after it, uninterrupted, leave intents for fleet members only, and keep
      theirs. */
  lemma PruneLeavesFleet(s: Settings, w: World, st: Store)
    ensures var v := After(s, w, [ReloadFleet(st), ListMembers, Prune]);
      && v.st == st && v.entries.Keys <= st.machines.Keys
      && forall mac | mac in w.entries && mac in st.machines :: mac in v.entries && v.entries[mac] == w.entries[mac]
  {
    hide After;
    Three(s, w, ReloadFleet(st), ListMembers, Prune);
  }

  /** A delete, uninterrupted, takes the machine and its intent and nothing else. */
  lemma DeleteTakesBoth(s: Settings, w: World, mac: string)
    requires mac in w.st.machines
    ensures var v := Next(s, Next(s, w, DeleteMachine(mac)), CancelDeleted(mac));
      && v.st.machines == w.st.machines - {mac} && v.entries == w.entries - {mac} && v.deletes == w.deletes
  {
  }

  /** Step i took the list that the next prune will go by. */
  ghost predicate LastListing(run: seq<Action>, i: nat) {
    i < |run| && run[i].ListMembers? && forall k | i < k < |run| :: !run[k].ListMembers? && !run[k].Prune?
  }

  lemma ListStep(s: Settings, w: World, a: Action)
    ensures Next(s, w, a).members ==
            if a.ListMembers? then Present(w.st.machines.Keys) else if a.Prune? then Absent else w.members
  {
    hide Decide, ConfigOf, FleetFile.Lookup, Mac.CanonicalMac, LiveInstall;
  }

  lemma {:induction false} MembersAreListed(s: Settings, w: World, run: seq<Action>)
    requires w.members.Absent?
    ensures After(s, w, run).members.Present? ==> exists i: nat :: LastListing(run, i)
    ensures forall i: nat | LastListing(run, i) :: After(s, w, run).members == Present(After(s, w, run[..i]).st.machines.Keys)
    decreases |run|
  {
    hide Next;
    if run != [] {
      var last := |run| - 1;
      var init := run[..last];
      MembersAreListed(s, w, init);
      ListStep(s, After(s, w, init), run[last]);
      if run[last].ListMembers? { assert LastListing(run, last); }
      if i: nat :| LastListing(init, i) {
        if !run[last].ListMembers? && !run[last].Prune? { assert LastListing(run, i); }
      }
      forall i: nat | LastListing(run, i)
        ensures After(s, w, run).members == Present(After(s, w, run[..i]).st.machines.Keys)
      {
        if i < last {
          assert LastListing(init, i) && init[..i] == run[..i];
        } else {
          assert run[..i] == init;
        }
      }
    }
  }

  /** In every run: a prune takes an intent back exactly if its machine was no member when the list was
      taken. */
  lemma {:induction false} PruneGoesByItsList(s: Settings, w: World, run: seq<Action>, mac: string)
    requires w.members.Absent?
    ensures var v := After(s, w, run);
      mac in v.entries ==>
        (mac !in Next(s, v, Prune).entries <==>
         exists i: nat :: LastListing(run, i) && mac !in After(s, w, run[..i]).st.machines)
  {
    MembersAreListed(s, w, run);
    hide After, LastListing;
  }

  predicate Adds(a: Action, mac: string) {
    (a.SaveMachine? && a.mac == mac) || (a.ReloadFleet? && mac in a.st.machines)
  }

  lemma MemberStep(s: Settings, w: World, a: Action, mac: string)
    ensures mac in Next(s, w, a).st.machines ==> mac in w.st.machines || Adds(a, mac)
    ensures a == DeleteMachine(mac) ==> mac !in Next(s, w, a).st.machines
    ensures mac in Next(s, w, a).deletes ==> mac in w.deletes || (a == DeleteMachine(mac) && mac in w.st.machines)
  {
    hide Decide, ConfigOf, FleetFile.Lookup, Mac.CanonicalMac, LiveInstall;
  }

  lemma {:induction false} AddedSince(s: Settings, w: World, run: seq<Action>, i: nat, mac: string)
    requires i <= |run| && mac !in After(s, w, run[..i]).st.machines && mac in After(s, w, run).st.machines
    ensures exists j :: i <= j < |run| && Adds(run[j], mac)
    decreases |run|
  {
    hide Next, Adds;
    assert run[..|run|] == run;
    if i < |run| {
      var last := |run| - 1;
      var init := run[..last];
      MemberStep(s, After(s, w, init), run[last], mac);
      if !Adds(run[last], mac) {
        assert init[..i] == run[..i];
        AddedSince(s, w, init, i, mac);
        var j :| i <= j < |init| && Adds(init[j], mac);
        assert Adds(run[j], mac);
      }
    }
  }

  /** So a member loses its intent to a prune only if it was added after the list was taken. */
  lemma {:induction false} MemberFallsOnlyIfAdded(s: Settings, w: World, run: seq<Action>, mac: string)
    requires w.members.Absent?
    ensures var v := After(s, w, run);
      mac in v.st.machines && mac in v.entries && mac !in Next(s, v, Prune).entries ==>
        exists i: nat, j: nat :: i <= j < |run| && LastListing(run, i) && Adds(run[j], mac)
  {
    hide After, Next;
    var v := After(s, w, run);
    if mac in v.st.machines && mac in v.entries && mac !in Next(s, v, Prune).entries {
      PruneGoesByItsList(s, w, run, mac);
      var i: nat :| LastListing(run, i) && mac !in After(s, w, run[..i]).st.machines;
      AddedSince(s, w, run, i, mac);
    }
  }

  /** And that does happen: a machine created and queued between the list and the prune. */
  lemma LateMemberLosesIntent(s: Settings, w: World, mac: string, p: Profile, action: P.Action)
    requires Mac.IsCanonical(mac) && mac !in w.st.machines && p.name != ""
    ensures var v := After(s, w, [ListMembers, SaveMachine(mac, p), SetIntent(mac, Present(action))]);
      mac in v.st.machines && mac in v.entries && mac !in Next(s, v, Prune).entries
  {
    hide After, Mac.IsCanonical, Mac.CanonicalMac;
    Mac.CanonicalMacFixed(mac);
    Three(s, w, ListMembers, SaveMachine(mac, p), SetIntent(mac, Present(action)));
  }

  /** In every run: the second section of a delete finds its machine in the fleet only if that was
      added again after the first, and then takes the new machine's intent. */
  lemma {:induction false} DeleteFollowsTheMachine(s: Settings, w: World, run: seq<Action>, mac: string)
    requires w.deletes == multiset{}
    ensures var v := After(s, w, run);
      mac in v.deletes ==>
        && mac !in Next(s, v, CancelDeleted(mac)).entries
        && exists i: nat :: i < |run| && run[i] == DeleteMachine(mac) && mac in After(s, w, run[..i]).st.machines
             && (mac in v.st.machines ==> exists j :: i < j < |run| && Adds(run[j], mac))
    decreases |run|
  {
    hide Next, Adds;
    var v := After(s, w, run);
    if mac in v.deletes {
      CancelTakes(s, v, mac);
      var i := DeletedAt(s, w, run, mac);
      assert run[..i + 1][..i] == run[..i];
      MemberStep(s, After(s, w, run[..i]), run[i], mac);
      if mac in v.st.machines { AddedSince(s, w, run, i + 1, mac); }
    }
  }

  lemma CancelTakes(s: Settings, w: World, mac: string)
    requires mac in w.deletes
    ensures mac !in Next(s, w, CancelDeleted(mac)).entries
  {
  }

  lemma {:induction false} DeletedAt(s: Settings, w: World, run: seq<Action>, mac: string) returns (i: nat)
    requires w.deletes == multiset{} && mac in After(s, w, run).deletes
    ensures i < |run| && run[i] == DeleteMachine(mac) && mac in After(s, w, run[..i]).st.machines
    decreases |run|
  {
    hide Next;
    var last := |run| - 1;
    var init := run[..last];
    MemberStep(s, After(s, w, init), run[last], mac);
    if mac in After(s, w, init).deletes {
      i := DeletedAt(s, w, init, mac);
      assert init[..i] == run[..i];
    } else {
      i := last;
    }
  }
}
