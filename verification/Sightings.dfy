/** The discovery store: the most recently seen unknown machines, at most 256 of them. */
module Sightings {
  import Mac

  const MAX := 256

  datatype Entry = Entry(arch: string, vendorClass: string, firstSeen: int, lastSeen: int, count: nat)

  type Entries = map<string, Entry>

  datatype Sight = Sight(mac: string, arch: string, vendorClass: string, at: int)

  function Fresh(s: Sight): Entry {
    Entry(s.arch, s.vendorClass, s.at, s.at, 1)
  }

  function SeenAgain(e: Entry, s: Sight): Entry {
    Entry(if s.arch != "" then s.arch else e.arch, if s.vendorClass != "" then s.vendorClass else e.vendorClass,
          e.firstSeen, s.at, e.count + 1)
  }

  ghost predicate Oldest(es: Entries, v: string) {
    v in es && forall m | m in es :: es[v].lastSeen <= es[m].lastSeen
  }

  /** What one Note may do. The victim is some entry seen least recently: with equal times the map
      order would decide. */
  ghost predicate Noted(es: Entries, es': Entries, s: Sight) {
    if s.mac in es then es' == es[s.mac := SeenAgain(es[s.mac], s)]
    else if |es| >= MAX then exists v :: Oldest(es, v) && es' == (es - {v})[s.mac := Fresh(s)]
    else es' == es[s.mac := Fresh(s)]
  }

  class Store {
    var entries: Entries

    constructor ()
      ensures entries == map[]
    {
      entries := map[];
    }

    method Note(mac: string, arch: string, vendorClass: string, now: int)
      requires "" !in entries
      modifies this
      ensures "" !in entries
      ensures var c := Mac.CanonicalMac(mac);
        if c.Bad? then entries == old(entries) else Noted(old(entries), entries, Sight(c.mac, arch, vendorClass, now))
    {
      match Mac.CanonicalMac(mac) {
        case Bad =>
        case Good(canon) =>
          assert canon != "" by { assert Mac.IsCanonical(canon); }
          var s := Sight(canon, arch, vendorClass, now);
          if canon in entries {
            var e := entries[canon];
            e := e.(lastSeen := now, count := e.count + 1);
            if arch != "" { e := e.(arch := arch); }
            if vendorClass != "" { e := e.(vendorClass := vendorClass); }
            entries := entries[canon := e];
            return;
          }
          if |entries| >= MAX {
            EvictOldest();
          }
          entries := entries[canon := Entry(arch, vendorClass, now, now, 1)];
      }
    }

    /** evictOldestLocked: ranges over the entries in any order, keeping the oldest so far. */
    method EvictOldest()
      requires entries != map[] && "" !in entries
      modifies this
      ensures exists v :: Oldest(old(entries), v) && entries == old(entries) - {v}
    {
      var oldestMac, oldest := "", 0;
      var rest := entries.Keys;
      while rest != {}
        invariant rest <= entries.Keys
        invariant oldestMac == "" ==> rest == entries.Keys
        invariant oldestMac != "" ==>
          && oldestMac in entries && entries[oldestMac].lastSeen == oldest
          && forall m | m in entries && m !in rest :: oldest <= entries[m].lastSeen
        decreases |rest|
      {
        var m :| m in rest;
        rest := rest - {m};
        if oldestMac == "" || entries[m].lastSeen < oldest {
          oldestMac, oldest := m, entries[m].lastSeen;
        }
      }
      assert oldestMac != "" by { assert entries.Keys != {}; }
      assert Oldest(entries, oldestMac);
      entries := entries - {oldestMac};
    }
  }

  // ----- the reference: a list in order of recency -----

  function Without(xs: seq<string>, m: string): seq<string>
  {
    if xs == [] then [] else if xs[0] == m then Without(xs[1..], m) else [xs[0]] + Without(xs[1..], m)
  }

  /** The distinct MACs of a history, most recently seen first. */
  function MostRecent(h: seq<Sight>): seq<string>
    decreases |h|
  {
    if h == [] then [] else [h[|h| - 1].mac] + Without(MostRecent(h[..|h| - 1]), h[|h| - 1].mac)
  }

  function Retained(h: seq<Sight>): seq<string> {
    Prefix(MostRecent(h))
  }

  function Prefix(xs: seq<string>): seq<string> {
    if |xs| <= 256 then xs else xs[..256]
  }

  /** The sightings of m since it was last new to the store. */
  function SightsSince(h: seq<Sight>, m: string): seq<Sight>
    decreases |h|
  {
    if h == [] then []
    else
      var init := h[..|h| - 1];
      if h[|h| - 1].mac != m then SightsSince(init, m)
      else if m in Retained(init) then SightsSince(init, m) + [h[|h| - 1]] else [h[|h| - 1]]
  }

  /** The last of these that is not empty. */
  function LastSet(xs: seq<string>): string
    decreases |xs|
  {
    if xs == [] then "" else if xs[|xs| - 1] != "" then xs[|xs| - 1] else LastSet(xs[..|xs| - 1])
  }

  function Archs(ss: seq<Sight>): (r: seq<string>)
    ensures |r| == |ss|
  {
    seq(|ss|, i requires 0 <= i < |ss| => ss[i].arch)
  }

  function VendorClasses(ss: seq<Sight>): (r: seq<string>)
    ensures |r| == |ss|
  {
    seq(|ss|, i requires 0 <= i < |ss| => ss[i].vendorClass)
  }

  /** What the feed shows of a machine with these sightings. */
  ghost predicate Shows(e: Entry, ss: seq<Sight>) {
    && ss != [] && e.count == |ss| && e.firstSeen == ss[0].at && e.lastSeen == ss[|ss| - 1].at
    && e.arch == LastSet(Archs(ss)) && e.vendorClass == LastSet(VendorClasses(ss))
  }

  lemma ShowsFresh(s: Sight)
    ensures Shows(Fresh(s), [s])
  {
  }

  lemma ShowsAgain(e: Entry, ss: seq<Sight>, s: Sight)
    requires Shows(e, ss)
    ensures Shows(SeenAgain(e, s), ss + [s])
  {
    assert Archs(ss + [s]) == Archs(ss) + [s.arch] && VendorClasses(ss + [s]) == VendorClasses(ss) + [s.vendorClass];
    assert (Archs(ss) + [s.arch])[..|ss|] == Archs(ss);
    assert (VendorClasses(ss) + [s.vendorClass])[..|ss|] == VendorClasses(ss);
  }

  /** When m was last seen. */
  function LastTime(h: seq<Sight>, m: string): int
    decreases |h|
  {
    if h == [] then 0 else if h[|h| - 1].mac == m then h[|h| - 1].at else LastTime(h[..|h| - 1], m)
  }

  /** Some sequence of Notes with this history leads from the empty store to es. */
  ghost predicate LeadsTo(h: seq<Sight>, es: Entries)
    decreases |h|
  {
    if h == [] then es == map[]
    else exists es0 :: LeadsTo(h[..|h| - 1], es0) && Noted(es0, es, Last(h))
  }

  function Last(h: seq<Sight>): Sight
    requires h != []
  {
    h[|h| - 1]
  }

  ghost predicate ClockAdvances(h: seq<Sight>) {
    forall i, j | 0 <= i < j < |h| :: h[i].at < h[j].at
  }

  ghost predicate Distinct(xs: seq<string>) {
    forall i, j | 0 <= i < j < |xs| :: xs[i] != xs[j]
  }

  lemma {:induction false} WithoutAbsent(xs: seq<string>, m: string)
    requires m !in xs
    ensures Without(xs, m) == xs
    decreases |xs|
  {
    if xs != [] {
      assert xs == [xs[0]] + xs[1..];
      WithoutAbsent(xs[1..], m);
    }
  }

  lemma {:induction false} WithoutAt(xs: seq<string>, m: string, i: nat)
    requires Distinct(xs) && i < |xs| && xs[i] == m
    ensures Without(xs, m) == xs[..i] + xs[i + 1..]
    decreases |xs|
  {
    if i == 0 {
      assert m !in xs[1..];
      WithoutAbsent(xs[1..], m);
    } else {
      assert xs[0] != xs[i];
      WithoutAt(xs[1..], m, i - 1);
      assert xs[..i] == [xs[0]] + xs[1..][..i - 1] && xs[i + 1..] == xs[1..][i..];
    }
  }

  lemma WithoutProps(xs: seq<string>, m: string)
    requires Distinct(xs)
    ensures Distinct(Without(xs, m)) && forall x :: x in Without(xs, m) <==> x in xs && x != m
  {
    hide Without;
    if m in xs {
      var i: nat :| i < |xs| && xs[i] == m;
      WithoutAt(xs, m, i);
      assert xs == xs[..i] + [m] + xs[i + 1..];
    } else {
      WithoutAbsent(xs, m);
    }
  }

  lemma {:induction false} MostRecentDistinct(h: seq<Sight>)
    ensures Distinct(MostRecent(h))
    ensures forall m :: m in MostRecent(h) <==> exists i :: 0 <= i < |h| && h[i].mac == m
    decreases |h|
  {
    if h != [] {
      hide Without;
      var init, s := h[..|h| - 1], Last(h);
      MostRecentDistinct(init);
      WithoutProps(MostRecent(init), s.mac);
      var w := Without(MostRecent(init), s.mac);
      assert MostRecent(h) == [s.mac] + w;
      assert s.mac !in w;
      assert forall j | 0 <= j < |w| :: w[j] in w;
      assert h == init + [s];
    }
  }

  lemma {:induction false} SeenBefore(h: seq<Sight>, m: string)
    requires ClockAdvances(h) && m in MostRecent(h)
    ensures LastTime(h, m) <= Last(h).at
    decreases |h|
  {
    hide Without;
    var init := h[..|h| - 1];
    MostRecentDistinct(init);
    WithoutProps(MostRecent(init), Last(h).mac);
    if m != Last(h).mac { SeenBefore(init, m); }
  }

  /** The list is ordered by the time of the last sighting. */
  lemma {:induction false} MostRecentOrder(h: seq<Sight>, i: nat, j: nat)
    requires ClockAdvances(h) && i < j < |MostRecent(h)|
    ensures LastTime(h, MostRecent(h)[i]) > LastTime(h, MostRecent(h)[j])
    decreases |h|
  {
    hide Without;
    var init, s := h[..|h| - 1], Last(h);
    var k := MostRecent(init);
    var w := Without(k, s.mac);
    MostRecentDistinct(init);
    WithoutProps(k, s.mac);
    assert MostRecent(h) == [s.mac] + w;
    assert w[j - 1] in w;
    if i == 0 {
      SeenBefore(init, w[j - 1]);
    } else {
      assert w[i - 1] in w;
      var a, b := WithoutPair(k, s.mac, i - 1, j - 1);
      MostRecentOrder(init, a, b);
    }
  }

  lemma WithoutPair(k: seq<string>, m: string, i: nat, j: nat) returns (a: nat, b: nat)
    requires Distinct(k) && i < j < |Without(k, m)|
    ensures a < b < |k| && k[a] == Without(k, m)[i] && k[b] == Without(k, m)[j]
  {
    hide Without;
    var d: nat := if m in k then IndexOf(k, m) else |k|;
    if m in k { WithoutAt(k, m, d); } else { WithoutAbsent(k, m); }
    a, b := if i < d then i else i + 1, if j < d then j else j + 1;
  }

  function IndexOf(xs: seq<string>, m: string): (i: nat)
    requires m in xs
    ensures i < |xs| && xs[i] == m
  {
    if xs[0] == m then 0 else 1 + IndexOf(xs[1..], m)
  }

  lemma {:induction false} DistinctSize(xs: seq<string>, ks: set<string>)
    requires Distinct(xs) && forall x :: x in xs <==> x in ks
    ensures |ks| == |xs|
    decreases |xs|
  {
    if xs == [] {
      assert ks == {};
    } else {
      assert forall x :: x in xs[1..] <==> x in ks - {xs[0]} by { assert xs == [xs[0]] + xs[1..]; }
      DistinctSize(xs[1..], ks - {xs[0]});
      assert xs[0] in ks;
    }
  }

  /** The store holds exactly the most recent MACs, each with its last sighting and its count. */
  ghost predicate Matches(h: seq<Sight>, es: Entries) {
    && (forall m :: m in es <==> m in Retained(h))
    && (forall m | m in es :: es[m].lastSeen == LastTime(h, m) && Shows(es[m], SightsSince(h, m)))
  }

  /** How the retained list changes with one more sighting. */
  lemma RetainedStep(h: seq<Sight>)
    requires h != []
    ensures var m, r := Last(h).mac, Retained(h[..|h| - 1]);
      && Distinct(r) && |r| <= MAX
      && (m in r ==> forall x :: x in Retained(h) <==> x in r)
      && (m !in r && |r| < MAX ==> forall x :: x in Retained(h) <==> x in r || x == m)
      && (m !in r && |r| == MAX ==> forall x :: x in Retained(h) <==> (x in r && x != r[MAX - 1]) || x == m)
  {
    hide Without;
    var l, m := MostRecent(h[..|h| - 1]), Last(h).mac;
    MostRecentDistinct(h[..|h| - 1]);
    assert MostRecent(h) == [m] + Without(l, m);
    if m in Retained(h[..|h| - 1]) { PrefixKeeps(l, m); } else { PrefixGains(l, m); }
  }

  lemma PrefixKeeps(l: seq<string>, m: string)
    requires Distinct(l) && m in Prefix(l)
    ensures forall x :: x in Prefix([m] + Without(l, m)) <==> x in Prefix(l)
  {
    hide Without;
    var i := IndexOf(Prefix(l), m);
    WithoutAt(l, m, i);
    assert Prefix(l) == l[..i] + [m] + l[i + 1..|Prefix(l)|];
    assert Prefix([m] + Without(l, m)) == [m] + l[..i] + l[i + 1..|Prefix(l)|];
  }

  lemma PrefixGains(l: seq<string>, m: string)
    requires Distinct(l) && m !in Prefix(l)
    ensures |l| < MAX ==> forall x :: x in Prefix([m] + Without(l, m)) <==> x in l || x == m
    ensures |l| >= MAX ==>
              forall x :: x in Prefix([m] + Without(l, m)) <==> (x in Prefix(l) && x != l[MAX - 1]) || x == m
  {
    hide Without;
    if m in l {
      var i := IndexOf(l, m);
      assert forall j | 0 <= j < |Prefix(l)| :: l[j] == Prefix(l)[j];
      assert i >= |Prefix(l)|;
      WithoutAt(l, m, i);
    } else {
      WithoutAbsent(l, m);
    }
    if |l| >= MAX {
      assert Prefix(l) == l[..MAX - 1] + [l[MAX - 1]];
      assert Prefix([m] + Without(l, m)) == [m] + l[..MAX - 1];
      assert l[MAX - 1] !in l[..MAX - 1];
    }
  }

  /** The only entry that can be evicted is the last of the retained list. */
  lemma VictimIsLast(h: seq<Sight>, es: Entries, v: string)
    requires ClockAdvances(h) && Matches(h, es) && Oldest(es, v) && |Retained(h)| == MAX
    ensures v == Retained(h)[MAX - 1]
  {
    var r := Retained(h);
    assert v in r && r[MAX - 1] in r;
    var i := IndexOf(r, v);
    if i < MAX - 1 { MostRecentOrder(h, i, MAX - 1); }
  }

  /** LRU refinement: after any sequence of Notes with an advancing clock the store holds exactly
      the 256 most recently seen distinct MACs, or all of them if there are fewer, each with the
      number of sightings since it was last new, the times of the first and last of them, and the last
      architecture and vendor class that any of them carried. */
  lemma {:induction false} StoreIsLru(h: seq<Sight>, es: Entries)
    requires ClockAdvances(h) && LeadsTo(h, es)
    ensures Matches(h, es)
    decreases |h|
  {
    if h != [] {
      var init, s := h[..|h| - 1], h[|h| - 1];
      var es0 :| LeadsTo(init, es0) && Noted(es0, es, s);
      StoreIsLru(init, es0);
      MatchesStep(h, es0, es);
    }
  }

  lemma SightingKeeps(h: seq<Sight>, es0: Entries, es: Entries, m: string)
    requires h != [] && Matches(h[..|h| - 1], es0) && Noted(es0, es, Last(h)) && m in es
    ensures es[m].lastSeen == LastTime(h, m) && Shows(es[m], SightsSince(h, m))
  {
    hide Retained, Shows;
    var init, s := h[..|h| - 1], Last(h);
    if m == s.mac {
      ShowsFresh(s);
      if m in es0 { ShowsAgain(es0[m], SightsSince(init, m), s); }
    } else {
      assert m in es0;
    }
  }

  lemma MembersStep(h: seq<Sight>, es0: Entries, es: Entries)
    requires h != [] && ClockAdvances(h) && Matches(h[..|h| - 1], es0) && Noted(es0, es, h[|h| - 1])
    ensures forall m :: m in es <==> m in Retained(h)
  {
    hide Retained, MostRecent, Shows, SeenAgain, SightsSince;
    var init, s := h[..|h| - 1], h[|h| - 1];
    RetainedStep(h);
    DistinctSize(Retained(init), es0.Keys);
    if s.mac !in es0 && |es0| >= MAX {
      var v :| Oldest(es0, v) && es == (es0 - {v})[s.mac := Fresh(s)];
      VictimIsLast(init, es0, v);
    }
  }

  lemma MatchesStep(h: seq<Sight>, es0: Entries, es: Entries)
    requires h != [] && ClockAdvances(h) && Matches(h[..|h| - 1], es0) && Noted(es0, es, h[|h| - 1])
    ensures Matches(h, es)
  {
    hide Retained, MostRecent, Shows, SeenAgain, SightsSince, Noted;
    MembersStep(h, es0, es);
    forall m | m in es ensures es[m].lastSeen == LastTime(h, m) && Shows(es[m], SightsSince(h, m)) {
      SightingKeeps(h, es0, es, m);
    }
  }

  /** So the outcome does not depend on the order the map is ranged over. */
  lemma {:induction false} EvictionIsDetermined(h: seq<Sight>, es: Entries, fs: Entries)
    requires ClockAdvances(h) && LeadsTo(h, es) && LeadsTo(h, fs)
    ensures es == fs
    decreases |h|
  {
    if h != [] {
      hide Retained, MostRecent;
      var init, s := h[..|h| - 1], h[|h| - 1];
      var es0 :| LeadsTo(init, es0) && Noted(es0, es, s);
      var fs0 :| LeadsTo(init, fs0) && Noted(fs0, fs, s);
      EvictionIsDetermined(init, es0, fs0);
      StoreIsLru(init, es0);
      if s.mac !in es0 && |es0| >= MAX {
        RetainedStep(h);
        DistinctSize(Retained(init), es0.Keys);
        var v :| Oldest(es0, v) && es == (es0 - {v})[s.mac := Fresh(s)];
        var w :| Oldest(es0, w) && fs == (es0 - {w})[s.mac := Fresh(s)];
        VictimIsLast(init, es0, v);
        VictimIsLast(init, es0, w);
      }
    }
  }
}
