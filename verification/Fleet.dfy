/** The live fleet as one object: its map and defaults in memory, its file on disk. */
module FleetStore {
  import opened FleetTypes
  import opened FleetOps
  import opened FleetFile
  import opened Sorting
  import ETag
  import Mac
  import Text

  function NameKey(m: Machine): Key { (m.profile.name, m.mac) }

  /** The machines by name and then MAC. */
  ghost function ByName(machines: map<string, Profile>): seq<Machine> {
    SortBy(NameKey, SomeListing(machines))
  }

  lemma ListingKeys(machines: map<string, Profile>, ms: seq<Machine>)
    requires IsListing(machines, ms)
    ensures DistinctKeys(NameKey, ms)
    ensures SortBy(NameKey, ms) == ByName(machines)
  {
    ListingsAgree(machines, ms, SomeListing(machines));
    SortIgnoresOrder(NameKey, ms, SomeListing(machines));
  }

  /** ByName is the only ascending list of exactly these machines, and it holds each MAC once. */
  lemma ByNameIsDetermined(machines: map<string, Profile>, xs: seq<Machine>)
    ensures IsListing(machines, ByName(machines)) && |ByName(machines)| == |machines|
    ensures Ascending(NameKey, ByName(machines))
    ensures forall i, j | 0 <= i < j < |ByName(machines)| ::
              var m, n := ByName(machines)[i], ByName(machines)[j];
              Text.Less(m.profile.name, n.profile.name) || (m.profile.name == n.profile.name && Text.Less(m.mac, n.mac))
    ensures IsListing(machines, xs) && Ascending(NameKey, xs) ==> xs == ByName(machines)
  {
    var ms := SomeListing(machines);
    ListingKeys(machines, ms);
    SortBySorts(NameKey, ms);
    ListingSize(machines, ms);
    var ys := ByName(machines);
    forall i, j | 0 <= i < j < |ys| ensures ys[i].mac != ys[j].mac {
      KeyLessIsTotal(NameKey(ys[i]), NameKey(ys[j]));
      assert ys[i] in ms && ys[j] in ms;
    }
    forall i, j | 0 <= i < j < |ys|
      ensures Text.Less(ys[i].profile.name, ys[j].profile.name) ||
              (ys[i].profile.name == ys[j].profile.name && Text.Less(ys[i].mac, ys[j].mac))
    {
      assert KeyLess(NameKey(ys[i]), NameKey(ys[j]));
    }
    if IsListing(machines, xs) && Ascending(NameKey, xs) {
      ListingsAgree(machines, xs, ms);
      AscendingUnique(NameKey, xs, ys);
    }
  }

  lemma {:induction false} ListingSize(machines: map<string, Profile>, ms: seq<Machine>)
    requires IsListing(machines, ms)
    ensures |ms| == |machines|
    decreases |ms|
  {
    if ms == [] {
      assert forall k | k in machines :: Machine(k, machines[k]) in ms;
      assert machines == map[];
    } else {
      hide IsListing;
      var x := ms[0];
      ListingTail(machines, ms);
      ListingSize(machines - {x.mac}, ms[1..]);
      assert machines.Keys == (machines - {x.mac}).Keys + {x.mac};
      assert |machines.Keys| == |(machines - {x.mac}).Keys| + 1;
    }
  }

  lemma ListingTail(machines: map<string, Profile>, ms: seq<Machine>)
    requires ms != [] && IsListing(machines, ms)
    ensures IsListing(machines - {ms[0].mac}, ms[1..]) && ms[0].mac in machines
  {
    var x := ms[0];
    assert x in ms;
    forall y ensures y in ms[1..] <==> y.mac in machines - {x.mac} && (machines - {x.mac})[y.mac] == y.profile {
      assert ms == [x] + ms[1..];
    }
  }

  class Fleet {
    const path: string
    const base: string
    const digest: string -> string
    var machines: map<string, Profile>
    var defaults: Profile
    var file: ConfigFile

    ghost predicate Valid() reads this { IsBase(base) }

    ghost function Mem(): Store reads this { Store(machines, defaults) }

    constructor (path: string, base: string, digest: string -> string, file: ConfigFile, st: Store)
      requires IsBase(base)
      ensures Valid() && this.path == path && this.base == base && this.digest == digest
      ensures Mem() == st && this.file == file
    {
      this.path, this.base, this.digest := path, base, digest;
      machines, defaults, this.file := st.machines, st.defaults, file;
    }

    method ListMachines() returns (ms: seq<Machine>)
      ensures ms == ByName(machines)
    {
      ms := CollectMachines(machines);
      ListingKeys(machines, ms);
      ms := SortBy(NameKey, ms);
    }

    /** Save: `written` says whether creating, writing and renaming the temporary file worked. */
    method Save(written: bool) returns (ok: bool)
      requires Valid()
      modifies this`file
      ensures ok == (path != "" && written)
      ensures file == if ok then Encode(base, Mem()) else old(file)
    {
      if path == "" { return false; }
      var ms := CollectMachines(machines);
      var entries := [];
      for i := 0 to |ms|
        invariant entries == EncodeAll(base, ms[..i])
      {
        assert ms[..i + 1] == ms[..i] + [ms[i]];
        entries := entries + [EncodeMachine(base, ms[i])];
      }
      assert ms[..|ms|] == ms;
      SaveIgnoresMapOrder(base, machines, ms, SomeListing(machines));
      entries := SortBy(EntryKey, entries);
      if !written { return false; }
      file := ConfigFile(EncodeDefaults(base, defaults), entries);
      return true;
    }

    /** The admin form's bare insert: checked, but neither saved nor guarded by the save lock. */
    method AddOrUpdate(m: Machine, files: Files) returns (ok: bool)
      modifies this`machines
      ensures ok <==> (exists canon :: Mac.Denotes(m.mac, canon)) && InPlace(m.profile, files)
      ensures ok ==> forall canon | Mac.Denotes(m.mac, canon) :: machines == old(machines)[canon := m.profile]
      ensures !ok ==> machines == old(machines)
    {
      hide Mac.CanonicalMac, Mac.Denotes, ValidProfile, InPlace;
      Mac.CanonicalMacDenotes(m.mac);
      ValidIsInPlace(m.profile, files);
      match Mac.CanonicalMac(m.mac) {
        case Bad => return false;
        case Good(canon) =>
          if !ValidProfile(m.profile, files) { return false; }
          machines := machines[canon := m.profile];
          return true;
      }
    }

    method Remove(mac: string) returns (removed: bool)
      modifies this`machines
      ensures removed <==> Mac.CanonicalMac(mac).Good? && Mac.CanonicalMac(mac).mac in old(machines)
      ensures machines == if removed then old(machines) - {Mac.CanonicalMac(mac).mac} else old(machines)
    {
      match Mac.CanonicalMac(mac) {
        case Bad => return false;
        case Good(canon) =>
          if canon !in machines { return false; }
          machines := machines - {canon};
          return true;
      }
    }

    /** The new memory, file and result of one transaction run alone. */
    twostate predicate Transacted(req: Request, files: Files, written: bool, r: Result)
      requires old(Valid()) && Valid() && !req.ReloadRequest?
      reads this
    {
      && defaults == old(defaults)
      && match Prepare(req, files)
         case Rejected(why) => r == why && machines == old(machines) && file == old(file)
         case Ready(op) =>
           match Try(digest, old(machines), op)
           case Refuse(why) => r == why && machines == old(machines) && file == old(file)
           case Change(after, result) =>
             if path != "" && written
             then r == result && machines == after && file == Encode(base, Mem())
             else r == SaveFailed && machines == old(machines) && file == old(file)
    }

    method CreateAndSave(m: Machine, files: Files, written: bool) returns (r: Result)
      requires Valid()
      modifies this
      ensures Transacted(CreateRequest(m), files, written, r)
      ensures r == InvalidMac <==> forall canon :: !Mac.Denotes(m.mac, canon)
      ensures r == InvalidProfile <==> (exists canon :: Mac.Denotes(m.mac, canon)) && !InPlace(m.profile, files)
    {
      hide ETag.Tag, Mac.CanonicalMac, Mac.Denotes, ValidProfile, InPlace, Encode, IsBase;
      Mac.CanonicalMacDenotes(m.mac);
      ValidIsInPlace(m.profile, files);
      var canon;
      match Mac.CanonicalMac(m.mac) {
        case Bad => return InvalidMac;
        case Good(c) => canon := c;
      }
      if !ValidProfile(m.profile, files) { return InvalidProfile; }
      if canon in machines { return MacExists; }
      machines := machines[canon := m.profile];
      var ok := Save(written);
      if !ok {
        machines := machines - {canon};
        return SaveFailed;
      }
      var etag := ETag.ProfileETag(digest, canon, m.profile);
      return Stored(etag);
    }

    method UpdateAndSave(m: Machine, ifMatch: string, files: Files, written: bool) returns (r: Result)
      requires Valid()
      modifies this
      ensures Transacted(UpdateRequest(m, ifMatch), files, written, r)
      ensures r == InvalidMac <==> forall canon :: !Mac.Denotes(m.mac, canon)
      ensures r == InvalidProfile <==> (exists canon :: Mac.Denotes(m.mac, canon)) && !InPlace(m.profile, files)
    {
      hide ETag.Tag, Mac.CanonicalMac, Mac.Denotes, ValidProfile, InPlace, Encode, IsBase;
      Mac.CanonicalMacDenotes(m.mac);
      ValidIsInPlace(m.profile, files);
      var canon;
      match Mac.CanonicalMac(m.mac) {
        case Bad => return InvalidMac;
        case Good(c) => canon := c;
      }
      if !ValidProfile(m.profile, files) { return InvalidProfile; }
      if ifMatch == "" { return PreconditionRequired; }
      if canon !in machines { return MacAbsent; }
      var prior := machines[canon];
      var current := ETag.ProfileETag(digest, canon, prior);
      if current != ifMatch { return PreconditionFailed; }
      machines := machines[canon := m.profile];
      var ok := Save(written);
      if !ok {
        machines := machines[canon := prior];
        return SaveFailed;
      }
      var etag := ETag.ProfileETag(digest, canon, m.profile);
      return Stored(etag);
    }

    method DeleteAndSave(mac: string, ifMatch: string, files: Files, written: bool) returns (r: Result)
      requires Valid()
      modifies this
      ensures Transacted(DeleteRequest(mac, ifMatch), files, written, r)
    {
      hide ETag.Tag, Mac.CanonicalMac, ValidProfile, Encode, IsBase;
      var canon;
      match Mac.CanonicalMac(mac) {
        case Bad => return InvalidMac;
        case Good(c) => canon := c;
      }
      if canon !in machines { return Deleted(false); }
      var prior := machines[canon];
      var current := ETag.ProfileETag(digest, canon, prior);
      if ifMatch != "" && current != ifMatch { return PreconditionFailed; }
      machines := machines - {canon};
      var ok := Save(written);
      if !ok {
        machines := machines[canon := prior];
        return SaveFailed;
      }
      return Deleted(true);
    }

    /** Reload: `readable` says whether the file could be read and parsed. Nothing changes unless
        every check passes. */
    method Reload(files: Files, readable: bool) returns (r: Result)
      requires Valid()
      modifies this`machines, this`defaults
      ensures var d := Decode(base, files, file);
        if path != "" && readable && d.Ok? then r == Reloaded && Mem() == d.value
        else r == ReloadFailed && Mem() == old(Mem())
    {
      if path == "" || !readable { return ReloadFailed; }
      var d := DecodeDefaults(base, files, file.defaults);
      if d.Failed? { return ReloadFailed; }
      var read: map<string, Profile> := map[];
      for i := 0 to |file.machines|
        invariant DecodeMachines(base, files, file.machines, map[]) ==
                  DecodeMachines(base, files, file.machines[i..], read)
      {
        var e := file.machines[i];
        assert file.machines[i..][0] == e && file.machines[i..][1..] == file.machines[i + 1..];
        match DecodeMachine(base, files, e, read.Keys) {
          case Failed(_) => return ReloadFailed;
          case Ok(m) => read := read[m.mac := m.profile];
        }
      }
      machines, defaults := read, d.value;
      return Reloaded;
    }
  }
}
