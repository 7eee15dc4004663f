/** The "client got the OFFER but never fetched" hint: one timer goroutine per OFFER, all sharing
    the pending map. */
module Hints {
  type Pending = map<string, int>

  function Offered(p: Pending, mac: string, at: int): Pending {
    if mac == "" then p else p[mac := at]
  }

  function Served(p: Pending, tag: string): Pending {
    if tag == "" then p else if tag in p then p - {tag} else map[]
  }

  predicate Fires(p: Pending, mac: string, at: int) {
    mac in p && p[mac] == at
  }

  function Woken(p: Pending, mac: string, at: int): Pending {
    if Fires(p, mac, at) then p - {mac} else p
  }

  class Listener {
    var pending: Pending
    const followUpTimeout: int

    constructor (timeout: int)
      ensures pending == map[] && followUpTimeout == timeout
    {
      pending, followUpTimeout := map[], timeout;
    }

    /** Says whether a timer goroutine was started. */
    method NotePending(mac: string, now: int) returns (started: bool)
      modifies this
      ensures started <==> followUpTimeout > 0 && mac != ""
      ensures pending == if started then Offered(old(pending), mac, now) else old(pending)
    {
      if followUpTimeout <= 0 || mac == "" { return false; }
      pending := pending[mac := now];
      return true;
    }

    method NoteServed(tag: string)
      modifies this
      ensures pending == Served(old(pending), tag)
    {
      if tag == "" { return; }
      if tag in pending {
        pending := pending - {tag};
        return;
      }
      var rest := pending.Keys;
      while rest != {}
        invariant pending.Keys == rest
        decreases |rest|
      {
        var k :| k in rest;
        rest := rest - {k};
        pending := pending - {k};
      }
    }

    /** The second half of the goroutine NotePending(mac, at) started. */
    method Wake(mac: string, at: int) returns (shouldFire: bool)
      modifies this
      ensures shouldFire <==> Fires(old(pending), mac, at)
      ensures pending == Woken(old(pending), mac, at)
    {
      shouldFire := mac in pending && pending[mac] == at;
      if shouldFire { pending := pending - {mac}; }
    }
  }

  // ----- runs -----

  /** The lock sections of a run. A wake-up names the OFFER, by position, whose timer it is. */
  datatype Event =
    | Offer(mac: string, at: int)
    | Fetch(tag: string)
    | Wake(offer: nat)

  predicate IsOffer(h: seq<Event>, i: nat) {
    i < |h| && h[i].Offer? && h[i].mac != ""
  }

  /** Every wake-up belongs to an earlier OFFER and comes once. Otherwise wake-ups, OFFERs and
      fetches interleave in any way. */
  ghost predicate Legal(h: seq<Event>) {
    && (forall j | 0 <= j < |h| && h[j].Wake? :: h[j].offer < j && IsOffer(h, h[j].offer))
    && (forall j, k | 0 <= j < k < |h| && h[j].Wake? :: h[j] != h[k])
  }

  /** No two OFFERs to a MAC read the same time. */
  ghost predicate DistinctStamps(h: seq<Event>) {
    forall j, k | 0 <= j < k < |h| && h[j].Offer? :: h[j] != h[k]
  }

  function After(h: seq<Event>): Pending
    requires Legal(h)
    decreases |h|
  {
    if h == [] then map[]
    else
      var p := After(h[..|h| - 1]);
      match h[|h| - 1]
      case Offer(mac, at) => Offered(p, mac, at)
      case Fetch(tag) => Served(p, tag)
      case Wake(i) => Woken(p, h[i].mac, h[i].at)
  }

  // ----- the reference: read off the history alone -----

  /** Event j is the wake-up of a timer whose OFFER went to the same MAC with the same stamp. */
  predicate WakesLike(h: seq<Event>, j: nat, i: nat)
    requires j < |h| && i < |h|
  {
    h[j].Wake? && h[j].offer < |h| && h[h[j].offer] == h[i]
  }

  /** OFFER i is still waiting for its client: no newer OFFER to that MAC, no clearing fetch since,
      and no timer with its stamp has gone off. */
  ghost predicate Waiting(h: seq<Event>, i: nat)
    decreases |h|, 0
  {
    && IsOffer(h, i)
    && forall j | i < j < |h| ::
         && !(h[j].Offer? && h[j].mac == h[i].mac)
         && !WakesLike(h, j, i)
         && !(h[j].Fetch? && Clears(h[..j], h[j].tag, h[i].mac))
  }

  /** A fetch clears its own MAC when the tag is one that waits, and otherwise everybody. */
  ghost predicate Clears(h: seq<Event>, tag: string, mac: string)
    decreases |h|, 1
  {
    tag != "" && (tag == mac || !exists k: nat :: k < |h| && Waiting(h, k) && h[k].mac == tag)
  }

  /** OFFER k waits, and it went to this MAC with this stamp. */
  ghost predicate WaitsAs(h: seq<Event>, k: nat, mac: string, at: int) {
    Waiting(h, k) && h[k] == Offer(mac, at)
  }

  ghost predicate AgreesAt(h: seq<Event>, p: Pending, mac: string, at: int) {
    (mac in p && p[mac] == at) <==> exists k: nat :: WaitsAs(h, k, mac, at)
  }

  ghost predicate Agrees(h: seq<Event>, p: Pending) {
    forall mac, at :: AgreesAt(h, p, mac, at)
  }

  lemma WaitsStep(h: seq<Event>, k: nat, mac: string, at: int)
    requires Legal(h) && h != []
    ensures var init, e := h[..|h| - 1], h[|h| - 1];
      WaitsAs(h, k, mac, at) <==>
      if k < |init|
      then
        && WaitsAs(init, k, mac, at)
        && !(e.Offer? && e.mac == mac) && !(e.Wake? && h[e.offer] == Offer(mac, at))
        && !(e.Fetch? && Clears(init, e.tag, mac))
      else k == |init| && e == Offer(mac, at) && mac != ""
  {
    hide Clears;
    var init := h[..|h| - 1];
    assert forall j | 0 <= j < |init| :: init[j] == h[j] && init[..j] == h[..j];
  }

  lemma WaitsBound(h: seq<Event>, k: nat, mac: string, at: int)
    requires WaitsAs(h, k, mac, at)
    ensures IsOffer(h, k) && h[k] == Offer(mac, at) && Waiting(h, k)
    ensures Legal(h) ==> Wake(k) !in h
  {
    hide Clears;
  }

  lemma AgreesStep(h: seq<Event>, mac: string, at: int)
    requires Legal(h) && h != [] && Agrees(h[..|h| - 1], After(h[..|h| - 1]))
    ensures AgreesAt(h, After(h), mac, at)
  {
    hide Waiting, Clears;
    var init, e := h[..|h| - 1], h[|h| - 1];
    assert AgreesAt(init, After(init), mac, at);
    if k: nat :| WaitsAs(h, k, mac, at) { WaitsStep(h, k, mac, at); }
    if k: nat :| WaitsAs(init, k, mac, at) { WaitsBound(init, k, mac, at); WaitsStep(h, k, mac, at); }
    WaitsStep(h, |init|, mac, at);
    if e.Fetch? { FetchClears(init, After(init), e.tag, mac); }
  }

  lemma FetchClears(h: seq<Event>, p: Pending, tag: string, mac: string)
    requires Agrees(h, p)
    ensures mac in p ==> (mac in Served(p, tag) <==> !Clears(h, tag, mac))
  {
    if tag in p { assert AgreesAt(h, p, tag, p[tag]); }
    if k: nat :| k < |h| && Waiting(h, k) && h[k].mac == tag {
      assert AgreesAt(h, p, tag, h[k].at) && WaitsAs(h, k, tag, h[k].at);
    }
  }

  /** The map holds exactly the OFFERs that still wait. */
  lemma {:induction false} PendingIsWaiting(h: seq<Event>)
    requires Legal(h)
    ensures Agrees(h, After(h))
    decreases |h|
  {
    hide AgreesAt;
    if h == [] {
      forall mac, at ensures AgreesAt(h, After(h), mac, at) { NothingWaits(mac, at); }
    } else {
      PendingIsWaiting(h[..|h| - 1]);
      forall mac, at ensures AgreesAt(h, After(h), mac, at) { AgreesStep(h, mac, at); }
    }
  }

  lemma NothingWaits(mac: string, at: int)
    ensures AgreesAt([], map[], mac, at)
  {
  }

  /** What a timer does in any run, whatever the stamps: it hints exactly if some OFFER to its MAC
      with its stamp still waits. */
  lemma HintsForItsStamp(h: seq<Event>, j: nat)
    requires Legal(h) && j < |h| && h[j].Wake?
    ensures var o := h[h[j].offer];
      Legal(h[..j]) && (Fires(After(h[..j]), o.mac, o.at) <==> exists i: nat :: WaitsAs(h[..j], i, o.mac, o.at))
  {
    var o := h[h[j].offer];
    PendingIsWaiting(h[..j]);
    assert AgreesAt(h[..j], After(h[..j]), o.mac, o.at);
    if i: nat :| WaitsAs(h[..j], i, o.mac, o.at) { WaitsBound(h[..j], i, o.mac, o.at); }
  }

  /** With distinct stamps, when an OFFER's timer goes off it hints exactly if that very OFFER is
      still waiting: always for a latest OFFER never cleared, never for any other. */
  lemma HintsExactlyTheWaiting(h: seq<Event>, j: nat)
    requires Legal(h) && DistinctStamps(h) && j < |h| && h[j].Wake?
    ensures var o := h[h[j].offer];
      Legal(h[..j]) && (Fires(After(h[..j]), o.mac, o.at) <==> Waiting(h[..j], h[j].offer))
  {
    var o := h[h[j].offer];
    HintsForItsStamp(h, j);
    if i: nat :| WaitsAs(h[..j], i, o.mac, o.at) {
      WaitsBound(h[..j], i, o.mac, o.at);
      assert h[i] == o && i == h[j].offer;
    }
    if Waiting(h[..j], h[j].offer) { assert WaitsAs(h[..j], h[j].offer, o.mac, o.at); }
  }

  /** With equal ones it also hints for another's: a timer whose own OFFER does not wait hints
      exactly if a different OFFER with its stamp does. */
  lemma EqualStampsHintEarly(h: seq<Event>, j: nat)
    requires Legal(h) && j < |h| && h[j].Wake? && !Waiting(h[..j], h[j].offer)
    ensures var o := h[h[j].offer];
      Fires(After(h[..j]), o.mac, o.at) <==> exists i: nat :: i != h[j].offer && WaitsAs(h[..j], i, o.mac, o.at)
  {
    HintsForItsStamp(h, j);
  }

  /** One hint per burst, whatever the stamps: between two hints for a MAC there is a fresh OFFER to
      it, and it is one that the second hint is for. */
  lemma OneHintPerBurst(h: seq<Event>, j: nat, k: nat)
    requires Legal(h) && j < k < |h| && h[j].Wake? && h[k].Wake? && h[h[j].offer].mac == h[h[k].offer].mac
    requires Fires(After(h[..j]), h[h[j].offer].mac, h[h[j].offer].at)
    requires Fires(After(h[..k]), h[h[k].offer].mac, h[h[k].offer].at)
    ensures exists i: nat :: j < i < k && WaitsAs(h[..k], i, h[h[k].offer].mac, h[h[k].offer].at)
  {
    hide Clears;
    var o, q := h[h[j].offer], h[h[k].offer];
    HintsForItsStamp(h, j);
    HintsForItsStamp(h, k);
    var a: nat :| WaitsAs(h[..j], a, o.mac, o.at);
    var b: nat :| WaitsAs(h[..k], b, q.mac, q.at);
    WaitsBound(h[..j], a, o.mac, o.at);
    assert h[..k][j] == h[j] && h[..k][h[j].offer] == o && h[..k][a] == h[a] == h[..j][a];
    assert WakesLike(h[..k], j, a);
  }

  /** Nothing leaks: a pending entry always has a timer that has yet to go off, so once every timer
      has gone off the map is empty. */
  lemma {:induction false} NoEntryLeaks(h: seq<Event>)
    requires Legal(h)
    ensures forall m | m in After(h) ::
              exists k: nat :: IsOffer(h, k) && h[k] == Offer(m, After(h)[m]) && Wake(k) !in h
    ensures (forall k: nat | IsOffer(h, k) :: Wake(k) in h) ==> After(h) == map[]
  {
    PendingIsWaiting(h);
    forall m | m in After(h)
      ensures exists k: nat :: IsOffer(h, k) && h[k] == Offer(m, After(h)[m]) && Wake(k) !in h
    {
      assert AgreesAt(h, After(h), m, After(h)[m]);
      var k: nat :| WaitsAs(h, k, m, After(h)[m]);
      WaitsBound(h, k, m, After(h)[m]);
    }
  }
}
