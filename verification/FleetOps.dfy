/** What each transactional operation on the fleet means, one at a time. */
module FleetOps {
  import opened FleetTypes
  import ETag
  import Mac

  /** A call as the HTTP layer makes it. */
  datatype Request =
    | CreateRequest(m: Machine)
    | UpdateRequest(m: Machine, ifMatch: string)
    | DeleteRequest(mac: string, ifMatch: string)
    | ReloadRequest

  /** A call that passed the checks made before the save lock is taken. */
  datatype Op =
    | Create(mac: string, profile: Profile)
    | Update(mac: string, profile: Profile, ifMatch: string)
    | Delete(mac: string, ifMatch: string)
    | Reload(files: Files)

  datatype Result =
    | Stored(etag: string)
    | Deleted(existed: bool)
    | Reloaded
    | InvalidMac
    | InvalidProfile
    | PreconditionRequired
    | MacExists
    | MacAbsent
    | PreconditionFailed
    | SaveFailed
    | ReloadFailed

  datatype Prepared = Ready(op: Op) | Rejected(result: Result)

  /** The checks CreateAndSave, UpdateAndSave and DeleteAndSave make before locking. */
  function Prepare(r: Request, files: Files): (p: Prepared)
    ensures p.Ready? && !p.op.Reload? ==> Mac.IsCanonical(p.op.mac)
    ensures p.Ready? ==> (p.op.Create? <==> r.CreateRequest?)
  {
    match r
    case CreateRequest(m) =>
      (match Mac.CanonicalMac(m.mac)
       case Bad => Rejected(InvalidMac)
       case Good(canon) =>
         if ValidProfile(m.profile, files) then Ready(Create(canon, m.profile)) else Rejected(InvalidProfile))
    case UpdateRequest(m, ifMatch) =>
      (match Mac.CanonicalMac(m.mac)
       case Bad => Rejected(InvalidMac)
       case Good(canon) =>
         if !ValidProfile(m.profile, files) then Rejected(InvalidProfile)
         else if ifMatch == "" then Rejected(PreconditionRequired)
         else Ready(Update(canon, m.profile, ifMatch)))
    case DeleteRequest(mac, ifMatch) =>
      (match Mac.CanonicalMac(mac)
       case Bad => Rejected(InvalidMac)
       case Good(canon) => Ready(Delete(canon, ifMatch)))
    case ReloadRequest => Ready(Reload(files))
  }

  /** What the section under the machine lock does: refuse, or change the map. */
  datatype Attempt = Refuse(result: Result) | Change(machines: map<string, Profile>, result: Result)

  /** The results of a transaction that changed the map and saved it. */
  predicate Saves(r: Result) {
    r.Stored? || r == Deleted(true)
  }

  ghost function Try(digest: string -> string, machines: map<string, Profile>, op: Op): (a: Attempt)
    requires !op.Reload?
    ensures a.result != SaveFailed && (a.Change? <==> Saves(a.result))
  {
    match op
    case Create(mac, p) =>
      if mac in machines then Refuse(MacExists)
      else Change(machines[mac := p], Stored(ETag.Tag(digest, mac, p)))
    case Update(mac, p, ifMatch) =>
      if mac !in machines then Refuse(MacAbsent)
      else if ETag.Tag(digest, mac, machines[mac]) != ifMatch then Refuse(PreconditionFailed)
      else Change(machines[mac := p], Stored(ETag.Tag(digest, mac, p)))
    case Delete(mac, ifMatch) =>
      if mac !in machines then Refuse(Deleted(false))
      else if ifMatch != "" && ETag.Tag(digest, mac, machines[mac]) != ifMatch then Refuse(PreconditionFailed)
      else Change(machines - {mac}, Deleted(true))
  }

  datatype Prior = NoPrior | Was(profile: Profile)

  function PriorOf(machines: map<string, Profile>, op: Op): Prior
    requires !op.Reload?
  {
    if op.mac in machines then Was(machines[op.mac]) else NoPrior
  }

  /** Putting the map back after a failed save. */
  function Undo(machines: map<string, Profile>, op: Op, prior: Prior): map<string, Profile>
    requires !op.Reload?
  {
    match prior
    case NoPrior => machines - {op.mac}
    case Was(p) => machines[op.mac := p]
  }

  /** A change leaves every other machine alone, and undoing it restores the map. */
  lemma ChangeIsUndone(digest: string -> string, machines: map<string, Profile>, op: Op)
    requires !op.Reload?
    ensures var a := Try(digest, machines, op);
      a.Change? ==>
        && Undo(a.machines, op, PriorOf(machines, op)) == machines
        && (forall k | k != op.mac :: (k in a.machines <==> k in machines) && (k in machines ==> a.machines[k] == machines[k]))
        && (op.mac in machines <==> !op.Create?)
  {
  }
}
