/** The install progress reported for each machine. */
module Tracker {
  import opened FleetTypes
  import opened Sorting
  import FleetFile
  import Mac
  import Text

  datatype Event = FirmwareDhcp | FirmwareFetched | IpxeDhcp | UserDataFetched | InstallerDone | InstallerFailed

  /** Nothing reported yet, or the reported stage. */
  datatype Stage = Unseen | At(event: Event)

  /** installer-failed is not on the ladder. */
  function Rank(s: Stage): nat {
    match s
    case Unseen => 0
    case At(FirmwareDhcp) => 1
    case At(FirmwareFetched) => 2
    case At(IpxeDhcp) => 3
    case At(UserDataFetched) => 4
    case At(InstallerDone) => 5
    case At(InstallerFailed) => 0
  }

  datatype Status = Status(name: string, boot: string, stage: Stage, events: seq<Event>, lastSeen: int)

  function Advance(s: Stage, e: Event): Stage {
    if e == InstallerFailed || Rank(At(e)) >= Rank(s) then At(e) else s
  }

  function Record(events: seq<Event>, e: Event): seq<Event> {
    if events == [] || events[|events| - 1] != e then events + [e] else events
  }

  function StageAfter(es: seq<Event>): Stage
    decreases |es|
  {
    if es == [] then Unseen else Advance(StageAfter(es[..|es| - 1]), es[|es| - 1])
  }

  function EventsAfter(es: seq<Event>): seq<Event>
    decreases |es|
  {
    if es == [] then [] else Record(EventsAfter(es[..|es| - 1]), es[|es| - 1])
  }

  /** The events after the last installer-failed. */
  function SinceFailure(es: seq<Event>): seq<Event>
    decreases |es|
  {
    if es == [] || es[|es| - 1] == InstallerFailed then [] else SinceFailure(es[..|es| - 1]) + [es[|es| - 1]]
  }

  /** A sequence without its adjacent repeats. */
  function Squeezed(es: seq<Event>): seq<Event>
    decreases |es|
  {
    if |es| < 2 then es
    else if es[0] == es[1] then Squeezed(es[1..])
    else [es[0]] + Squeezed(es[1..])
  }

  /** Failure wins only while it is the last report; otherwise the stage is the furthest one
      reported since the last failure, in whatever order the reports came. */
  lemma {:induction false} StageClosedForm(es: seq<Event>)
    ensures es == [] ==> StageAfter(es) == Unseen
    ensures es != [] && es[|es| - 1] == InstallerFailed ==> StageAfter(es) == At(InstallerFailed)
    ensures es != [] && es[|es| - 1] != InstallerFailed ==>
      && StageAfter(es).At? && StageAfter(es).event in SinceFailure(es)
      && forall e | e in SinceFailure(es) :: Rank(At(e)) <= Rank(StageAfter(es))
    decreases |es|
  {
    if es != [] {
      var init := es[..|es| - 1];
      StageClosedForm(init);
      assert forall e :: e in SinceFailure(init) + [es[|es| - 1]] <==> e in SinceFailure(init) || e == es[|es| - 1];
    }
  }

  /** The furthest report is the last one in this order. */
  const LADDER: seq<Event> := [FirmwareDhcp, FirmwareFetched, IpxeDhcp, UserDataFetched, InstallerDone]

  /** So the stage names the rung that was reached: one that was reported since the last failure, while
      none further up was. */
  lemma {:induction false} StageIsTopRung(es: seq<Event>, k: nat)
    requires k < |LADDER|
    ensures StageAfter(es) == At(LADDER[k]) <==>
            && es != [] && es[|es| - 1] != InstallerFailed && LADDER[k] in SinceFailure(es)
            && forall q | k < q < |LADDER| :: LADDER[q] !in SinceFailure(es)
  {
    StageClosedForm(es);
    NoFailureSince(es);
    assert forall q, r | 0 <= q < r < |LADDER| :: Rank(At(LADDER[q])) < Rank(At(LADDER[r]));
    if es != [] && es[|es| - 1] != InstallerFailed { OnLadder(StageAfter(es).event); }
  }

  lemma OnLadder(e: Event)
    ensures e != InstallerFailed ==> e in LADDER
  {
    assert LADDER[0] == FirmwareDhcp && LADDER[1] == FirmwareFetched && LADDER[2] == IpxeDhcp;
    assert LADDER[3] == UserDataFetched && LADDER[4] == InstallerDone;
  }

  lemma {:induction false} NoFailureSince(es: seq<Event>)
    ensures InstallerFailed !in SinceFailure(es)
    decreases |es|
  {
    if es != [] { NoFailureSince(es[..|es| - 1]); }
  }

  /** So two report sequences that do not end in failure and saw the same events since their last
      failure give the same stage. */
  lemma {:induction false} OrderDoesNotMatter(es: seq<Event>, fs: seq<Event>)
    requires es != [] && fs != [] && es[|es| - 1] != InstallerFailed && fs[|fs| - 1] != InstallerFailed
    requires forall e :: e in SinceFailure(es) <==> e in SinceFailure(fs)
    ensures StageAfter(es) == StageAfter(fs)
  {
    StageClosedForm(es);
    StageClosedForm(fs);
    NoFailureSince(es);
    assert Rank(StageAfter(es)) == Rank(StageAfter(fs));
  }

  lemma {:induction false} SqueezedEnd(es: seq<Event>)
    ensures es != [] ==> Squeezed(es) != [] && Squeezed(es)[|Squeezed(es)| - 1] == es[|es| - 1]
    decreases |es|
  {
    if |es| > 1 { SqueezedEnd(es[1..]); }
  }

  lemma {:induction false} SqueezedSnoc(es: seq<Event>, e: Event)
    ensures Squeezed(es + [e]) == Record(Squeezed(es), e)
    decreases |es|
  {
    if |es| == 0 {
      assert es + [e] == [e];
    } else if |es| == 1 {
      assert (es + [e])[1..] == [e];
    } else {
      SqueezedSnoc(es[1..], e);
      SqueezedEnd(es[1..]);
      assert (es + [e])[1..] == es[1..] + [e];
      if es[0] != es[1] {
        var r := Squeezed(es[1..]);
        assert Squeezed(es) == [es[0]] + r;
        assert Record([es[0]] + r, e) == [es[0]] + Record(r, e);
      }
    }
  }

  /** The history kept is the reports without adjacent repeats. */
  lemma {:induction false} HistoryIsSqueezed(es: seq<Event>)
    ensures EventsAfter(es) == Squeezed(es)
    decreases |es|
  {
    hide Squeezed, Record, EventsAfter;
    if es == [] {
      NoReports();
    } else {
      var init, e := es[..|es| - 1], es[|es| - 1];
      HistoryIsSqueezed(init);
      SqueezedSnoc(init, e);
      assert init + [e] == es;
      LastReport(es);
    }
  }

  lemma NoReports()
    ensures EventsAfter([]) == Squeezed([])
  {
  }

  lemma LastReport(es: seq<Event>)
    requires es != []
    ensures EventsAfter(es) == Record(EventsAfter(es[..|es| - 1]), es[|es| - 1])
  {
    hide Record;
  }

  /** One row of the status page. */
  datatype Row = Row(mac: string, name: string, boot: string, stage: Stage, lastSeen: int, stalled: bool)

  predicate Stalled(s: Status, cutoff: int) {
    s.stage != Unseen && s.stage != At(InstallerDone) && s.stage != At(InstallerFailed) && s.lastSeen != 0 && s.lastSeen < cutoff
  }

  function RowOf(machines: map<string, Profile>, seen: map<string, Status>, mac: string, cutoff: int): Row
    requires mac in machines || mac in seen
  {
    if mac in machines then
      var p := machines[mac];
      if mac in seen then
        Row(mac, p.name, p.boot, seen[mac].stage, seen[mac].lastSeen, Stalled(seen[mac], cutoff))
      else Row(mac, p.name, p.boot, Unseen, 0, false)
    else
      Row(mac, seen[mac].name, seen[mac].boot, seen[mac].stage, seen[mac].lastSeen, Stalled(seen[mac], cutoff))
  }

  /** Named rows come first, by name and MAC; then the nameless ones by MAC. */
  function RowKey(r: Row): Key {
    (if r.name != "" then "0" + r.name else "1", r.mac)
  }

  /** rows has exactly one row for each configured or observed MAC, in the page's order. */
  ghost predicate IsSnapshot(machines: map<string, Profile>, seen: map<string, Status>, cutoff: int, rows: seq<Row>) {
    && Ascending(RowKey, rows)
    && (forall i, j | 0 <= i < j < |rows| :: rows[i].mac != rows[j].mac)
    && (forall r :: r in rows <==> (r.mac in machines || r.mac in seen) && r == RowOf(machines, seen, r.mac, cutoff))
  }

  /** What the page shows of a machine: name and target from the fleet for members and as last noted for
      others; stage and time as noted, or none; and stalled when it stands on a rung below the last,
      was seen, and not since the cutoff. */
  lemma RowShows(machines: map<string, Profile>, seen: map<string, Status>, cutoff: int, rows: seq<Row>, r: Row)
    requires IsSnapshot(machines, seen, cutoff, rows) && r in rows
    ensures r.mac in machines ==> r.name == machines[r.mac].name && r.boot == machines[r.mac].boot
    ensures r.mac !in machines ==> r.mac in seen && r.name == seen[r.mac].name && r.boot == seen[r.mac].boot
    ensures r.mac in seen ==> r.stage == seen[r.mac].stage && r.lastSeen == seen[r.mac].lastSeen
    ensures r.mac !in seen ==> r.stage == Unseen && r.lastSeen == 0
    ensures r.stalled <==>
            && r.lastSeen != 0 && r.lastSeen < cutoff
            && (r.stage == At(FirmwareDhcp) || r.stage == At(FirmwareFetched) || r.stage == At(IpxeDhcp) ||
                r.stage == At(UserDataFetched))
  {
    match r.stage
    case Unseen =>
    case At(e) =>
      match e
      case FirmwareDhcp =>
      case FirmwareFetched =>
      case IpxeDhcp =>
      case UserDataFetched =>
      case InstallerDone =>
      case InstallerFailed =>
  }

  /** The order of the page: named rows first, by name and then MAC, and the others after them by MAC. */
  lemma RowsAreOrdered(machines: map<string, Profile>, seen: map<string, Status>, cutoff: int, rows: seq<Row>, i: nat, j: nat)
    requires IsSnapshot(machines, seen, cutoff, rows) && i < j < |rows|
    ensures var r, q := rows[i], rows[j];
      || (r.name != "" && q.name == "")
      || (r.name == q.name && Text.Less(r.mac, q.mac))
      || (r.name != "" && q.name != "" && r.name != q.name && Text.Less(r.name, q.name))
  {
    var r, q := rows[i], rows[j];
    assert KeyLess(RowKey(r), RowKey(q));
    assert ("0" + r.name)[1..] == r.name && ("0" + q.name)[1..] == q.name;
  }

  lemma SnapshotIsDetermined(machines: map<string, Profile>, seen: map<string, Status>, cutoff: int, xs: seq<Row>, ys: seq<Row>)
    requires IsSnapshot(machines, seen, cutoff, xs) && IsSnapshot(machines, seen, cutoff, ys)
    ensures xs == ys
  {
    AscendingUnique(RowKey, xs, ys);
  }

  lemma SortedIsSnapshot(machines: map<string, Profile>, seen: map<string, Status>, cutoff: int, out: seq<Row>)
    requires forall i, j | 0 <= i < j < |out| :: out[i].mac != out[j].mac
    requires forall r :: r in out <==> (r.mac in machines || r.mac in seen) && r == RowOf(machines, seen, r.mac, cutoff)
    ensures IsSnapshot(machines, seen, cutoff, SortBy(RowKey, out))
  {
    hide RowOf, SortBy, KeyLess;
    RowKeysDiffer(out);
    SortBySorts(RowKey, out);
    SortedRowsDiffer(out, SortBy(RowKey, out));
  }

  lemma RowKeysDiffer(out: seq<Row>)
    requires forall i, j | 0 <= i < j < |out| :: out[i].mac != out[j].mac
    ensures DistinctKeys(RowKey, out)
  {
  }

  lemma SortedRowsDiffer(out: seq<Row>, rows: seq<Row>)
    requires SameElements(rows, out) && Ascending(RowKey, rows)
    requires forall i, j | 0 <= i < j < |out| :: out[i].mac != out[j].mac
    ensures forall i, j | 0 <= i < j < |rows| :: rows[i].mac != rows[j].mac
  {
    hide RowKey;
    forall i, j | 0 <= i < j < |rows| ensures rows[i].mac != rows[j].mac {
      assert rows[i] in out && rows[j] in out;
      KeyLessIsTotal(RowKey(rows[i]), RowKey(rows[j]));
    }
  }

  class StatusTracker {
    var seen: map<string, Status>

    constructor ()
      ensures seen == map[]
    {
      seen := map[];
    }

    /** Note: re-reads the machine's name and target from the fleet each time. */
    method Note(st: Store, mac: string, e: Event, now: int)
      modifies this
      ensures var c := Mac.CanonicalMac(mac);
        if c.Bad? then seen == old(seen)
        else
          var was := if c.mac in old(seen) then old(seen)[c.mac] else Status("", "", Unseen, [], 0);
          var p := FleetFile.Lookup(st, c.mac);
          seen == old(seen)[c.mac := Status(p.name, p.boot, Advance(was.stage, e), Record(was.events, e), now)]
    {
      hide Mac.CanonicalMac, FleetFile.Lookup;
      match Mac.CanonicalMac(mac) {
        case Bad =>
        case Good(canon) =>
          var s := if canon in seen then seen[canon] else Status("", "", Unseen, [], 0);
          var p := FleetFile.Lookup(st, canon);
          s := s.(name := p.name, boot := p.boot);
          if e == InstallerFailed || Rank(At(e)) >= Rank(s.stage) { s := s.(stage := At(e)); }
          if |s.events| == 0 || s.events[|s.events| - 1] != e { s := s.(events := s.events + [e]); }
          seen := seen[canon := s.(lastSeen := now)];
      }
    }

    method LastEvent(mac: string) returns (s: Stage)
      ensures var c := Mac.CanonicalMac(mac); s == if c.Good? && c.mac in seen then seen[c.mac].stage else Unseen
    {
      match Mac.CanonicalMac(mac) {
        case Bad => return Unseen;
        case Good(canon) => if canon in seen { return seen[canon].stage; } return Unseen;
      }
    }

    /** Snapshot with the fleet fixed: both maps ranged over in any order. */
    method Snapshot(machines: map<string, Profile>, cutoff: int) returns (rows: seq<Row>)
      ensures IsSnapshot(machines, seen, cutoff, rows)
    {
      hide RowOf;
      var out: seq<Row> := [];
      var rest := machines.Keys;
      while rest != {}
        invariant rest <= machines.Keys
        invariant forall i, j | 0 <= i < j < |out| :: out[i].mac != out[j].mac
        invariant forall r :: r in out <==> r.mac in machines && r.mac !in rest && r == RowOf(machines, seen, r.mac, cutoff)
        decreases |rest|
      {
        var k :| k in rest;
        RowMac(machines, seen, k, cutoff);
        out := out + [RowOf(machines, seen, k, cutoff)];
        rest := rest - {k};
      }
      var others := seen.Keys;
      while others != {}
        invariant others <= seen.Keys
        invariant forall i, j | 0 <= i < j < |out| :: out[i].mac != out[j].mac
        invariant forall r :: r in out <==>
          (r.mac in machines || (r.mac in seen && r.mac !in others)) && r == RowOf(machines, seen, r.mac, cutoff)
        decreases |others|
      {
        var k :| k in others;
        if k !in machines {
          RowMac(machines, seen, k, cutoff);
          out := out + [RowOf(machines, seen, k, cutoff)];
        }
        others := others - {k};
      }
      SortedIsSnapshot(machines, seen, cutoff, out);
      rows := SortBy(RowKey, out);
    }
  }

  lemma RowMac(machines: map<string, Profile>, seen: map<string, Status>, mac: string, cutoff: int)
    requires mac in machines || mac in seen
    ensures RowOf(machines, seen, mac, cutoff).mac == mac
  {
  }
}
