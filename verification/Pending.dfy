/** Boot intents queued per machine, each with the time it was queued. */
module Pending {
  import Mac

  datatype Action = Install | Rescue

  datatype Entry = Entry(action: Action, requestedAt: int)

  datatype Status = None | Live(action: Action, requestedAt: int)

  type Entries = map<string, Entry>

  /** An intent counts until ttl has passed since it was queued; ttl <= 0 never expires. */
  function StatusAt(entries: Entries, ttl: int, mac: string, now: int): Status {
    if mac !in entries then None
    else if ttl > 0 && now >= entries[mac].requestedAt + ttl then None
    else Live(entries[mac].action, entries[mac].requestedAt)
  }

  class Store {
    const ttl: int
    var entries: Entries

    constructor (ttl: int)
      ensures entries == map[] && this.ttl == ttl
    {
      this.ttl := ttl;
      entries := map[];
    }

    /** Install and Rescue: queueing again restarts the clock. The expiry is 0 without a ttl. */
    method Queue(mac: string, action: Action, now: int) returns (ok: bool, expires: int)
      modifies this
      ensures ok == Mac.CanonicalMac(mac).Good?
      ensures ok ==> entries == old(entries)[Mac.CanonicalMac(mac).mac := Entry(action, now)]
      ensures !ok ==> entries == old(entries)
      ensures expires == if ok && ttl > 0 then now + ttl else 0
    {
      match Mac.CanonicalMac(mac) {
        case Bad => return false, 0;
        case Good(canon) =>
          entries := entries[canon := Entry(action, now)];
          return true, if ttl > 0 then now + ttl else 0;
      }
    }

    method Cancel(mac: string) returns (existed: bool)
      modifies this
      ensures var c := Mac.CanonicalMac(mac);
        && existed == (c.Good? && c.mac in old(entries))
        && entries == if c.Good? then old(entries) - {c.mac} else old(entries)
    {
      match Mac.CanonicalMac(mac) {
        case Bad => return false;
        case Good(canon) =>
          existed := canon in entries;
          entries := entries - {canon};
      }
    }

    method StatusOf(mac: string, now: int) returns (s: Status)
      ensures var c := Mac.CanonicalMac(mac);
        s == if c.Good? then StatusAt(entries, ttl, c.mac, now) else None
    {
      match Mac.CanonicalMac(mac) {
        case Bad => return None;
        case Good(canon) =>
          if canon !in entries { return None; }
          var e := entries[canon];
          if ttl > 0 {
            var expiresAt := e.requestedAt + ttl;
            if !(now < expiresAt) { return None; }
          }
          return Live(e.action, e.requestedAt);
      }
    }

    /** Drops every intent whose MAC is not in `known`. */
    method RetainOnly(known: set<string>) returns (removed: nat, dropped: seq<string>)
      modifies this
      ensures entries == map m | m in old(entries) && m in known :: old(entries)[m]
      ensures removed == |dropped| && forall m :: m in dropped <==> m in old(entries) && m !in known
    {
      removed, dropped := 0, [];
      var rest := entries.Keys;
      while rest != {}
        invariant rest <= old(entries).Keys
        invariant entries == map m | m in old(entries) && (m in known || m in rest) :: old(entries)[m]
        invariant removed == |dropped|
        invariant forall m :: m in dropped <==> m in old(entries) && m !in known && m !in rest
        decreases |rest|
      {
        var m :| m in rest;
        rest := rest - {m};
        if m !in known {
          dropped := dropped + [m];
          entries := entries - {m};
          removed := removed + 1;
        }
      }
    }
  }
}
