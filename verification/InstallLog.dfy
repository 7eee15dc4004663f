/** The install log: the last 64 KiB that each machine posted. */
module InstallLog {
  import Mac

  type Bytes = seq<bv8>

  const MAX_PER_MAC := 65536

  function Tail(s: Bytes): (t: Bytes)
    ensures |t| <= MAX_PER_MAC
  {
    if |s| > MAX_PER_MAC then s[|s| - MAX_PER_MAC..] else s
  }

  function Kept(log: map<string, Bytes>, mac: string): Bytes {
    if mac in log then log[mac] else []
  }

  function Appended(log: map<string, Bytes>, mac: string, b: Bytes): map<string, Bytes> {
    match Mac.CanonicalMac(mac)
    case Bad => log
    case Good(canon) => log[canon := Tail(Kept(log, canon) + b)]
  }

  class Store {
    var entries: map<string, array<bv8>>


    ghost function Contents(): map<string, Bytes>
      reads this, entries.Values
    {
      map m | m in entries :: entries[m][..]
    }

    constructor ()
      ensures Contents() == map[]
    {
      entries := map[];
    }

    method Append(mac: string, b: array<bv8>)
      modifies this
      ensures Contents() == Appended(old(Contents()), mac, b[..])
      ensures forall m | m in entries :: (m in old(entries) && entries[m] == old(entries)[m]) || fresh(entries[m])
    {
      hide Mac.CanonicalMac;
      match Mac.CanonicalMac(mac) {
        case Bad =>
        case Good(canon) =>
          var before := if canon in entries then entries[canon][..] else [];
          var joined := before + b[..];
          var cut := if |joined| > MAX_PER_MAC then |joined| - MAX_PER_MAC else 0;
          var cur := new bv8[|joined| - cut](i requires 0 <= i < |joined| - cut => joined[cut + i]);
          assert cur[..] == Tail(joined);
          entries := entries[canon := cur];
      }
    }

    /** A copy of the tail; null if there is none. */
    method Get(mac: string) returns (out: array?<bv8>)
      ensures var c := Mac.CanonicalMac(mac);
        if c.Bad? || Kept(Contents(), c.mac) == [] then out == null
        else out != null && fresh(out) && out[..] == Kept(Contents(), c.mac)
    {
      match Mac.CanonicalMac(mac) {
        case Bad => return null;
        case Good(canon) =>
          if canon !in entries || entries[canon].Length == 0 { return null; }
          var b := entries[canon];
          out := new bv8[b.Length](i requires 0 <= i < b.Length reads b => b[i]);
          assert out[..] == b[..];
      }
    }
  }

  /** Whatever a caller writes into the copy it was given, the log keeps what it had. */
  method GetAndOverwrite(store: Store, mac: string, junk: bv8)
    ensures store.Contents() == old(store.Contents())
  {
    var out := store.Get(mac);
    if out != null {
      for i := 0 to out.Length
        modifies out
      {
        out[i] := junk;
      }
    }
  }

  // ----- runs -----

  datatype Post = Post(mac: string, bytes: Bytes)

  function After(posts: seq<Post>): map<string, Bytes>
  {
    if posts == [] then map[]
    else
      var last := posts[|posts| - 1];
      Appended(After(posts[..|posts| - 1]), last.mac, last.bytes)
  }

  /** Everything ever posted for canon, under any spelling of it. */
  function Posted(posts: seq<Post>, canon: string): Bytes
  {
    if posts == [] then []
    else
      var last := posts[|posts| - 1];
      Posted(posts[..|posts| - 1], canon) + if Mac.CanonicalMac(last.mac) == Mac.Good(canon) then last.bytes else []
  }

  lemma TailOfTail(s: Bytes, b: Bytes)
    ensures Tail(Tail(s) + b) == Tail(s + b)
  {
    if |s| > MAX_PER_MAC {
      var d := |s| - MAX_PER_MAC;
      assert s + b == s[..d] + (Tail(s) + b);
      assert |Tail(s) + b| >= MAX_PER_MAC;
      assert Tail(s + b) == (s + b)[|s + b| - MAX_PER_MAC..];
      assert Tail(Tail(s) + b) == (Tail(s) + b)[|b|..];
    }
  }

  /** After any posts the log of a machine is the last 64 KiB of all that was posted for it. */
  lemma {:induction false} LogIsTheTail(posts: seq<Post>, canon: string)
    ensures Kept(After(posts), canon) == Tail(Posted(posts, canon))
    ensures var all := Posted(posts, canon);
      Kept(After(posts), canon) == if |all| <= 65536 then all else all[|all| - 65536..]
    decreases |posts|
  {
    if posts != [] {
      hide Mac.CanonicalMac;
      var init, last := posts[..|posts| - 1], posts[|posts| - 1];
      LogIsTheTail(init, canon);
      if Mac.CanonicalMac(last.mac) == Mac.Good(canon) {
        TailOfTail(Posted(init, canon), last.bytes);
      } else {
        assert Posted(posts, canon) == Posted(init, canon);
      }
    }
  }

  /** How the bytes were cut into posts does not matter. */
  lemma PostsJoin(log: map<string, Bytes>, mac: string, a: Bytes, b: Bytes)
    ensures Appended(Appended(log, mac, a), mac, b) == Appended(log, mac, a + b)
  {
    hide Mac.CanonicalMac, Tail;
    if Mac.CanonicalMac(mac).Good? {
      var was := Kept(log, Mac.CanonicalMac(mac).mac);
      TailOfTail(was + a, b);
      assert was + a + b == was + (a + b);
    }
  }
}
