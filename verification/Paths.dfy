/** Side-file paths: how fleet.yaml entries become absolute paths and go back again.
    The filepath functions are those of a system whose separator is '/'. */
module Paths {
  import opened Text

  predicate IsAbs(p: string) {
    p != "" && p[0] == '/'
  }

  predicate HasPrefix(s: string, prefix: string) {
    |prefix| <= |s| && s[..|prefix|] == prefix
  }

  /** One element of a rooted path, applied to the elements kept so far. */
  function Enter(kept: seq<string>, element: string): seq<string>
  {
    if element == "" || element == "." then kept
    else if element == ".." then if kept == [] then [] else kept[..|kept| - 1]
    else kept + [element]
  }

  function Walk(kept: seq<string>, elements: seq<string>): seq<string>
    decreases |elements|
  {
    if elements == [] then kept else Walk(Enter(kept, elements[0]), elements[1..])
  }

  /** The elements of filepath.Clean of a rooted path. */
  function Elements(p: string): seq<string>
    requires IsAbs(p)
  {
    Walk([], Split(p[1..], '/'))
  }

  function Rooted(elements: seq<string>): (p: string)
    ensures IsAbs(p)
  {
    if elements == [] then "/" else "/" + Join(elements, '/')
  }

  function CleanAbs(p: string): (r: string)
    requires IsAbs(p)
    ensures IsAbs(r)
  {
    Rooted(Elements(p))
  }

  function CommonPrefix(a: seq<string>, b: seq<string>): (n: nat)
    ensures n <= |a| && n <= |b| && a[..n] == b[..n]
    ensures n < |a| ==> !(a <= b)
  {
    if a == [] || b == [] || a[0] != b[0] then 0 else
      var n := CommonPrefix(a[1..], b[1..]);
      assert a[..n + 1] == [a[0]] + a[1..][..n] && b[..n + 1] == [b[0]] + b[1..][..n];
      n + 1
  }

  /** filepath.Rel for two rooted paths. */
  function Rel(base: string, p: string): string
    requires IsAbs(base) && IsAbs(p)
  {
    var b, t := Elements(base), Elements(p);
    var n := CommonPrefix(b, t);
    var steps := seq(|b| - n, i => "..") + t[n..];
    if steps == [] then "." else Join(steps, '/')
  }

  function Relativize(base: string, p: string): string
    requires base == "" || IsAbs(base)
  {
    if p == "" || base == "" then p
    else if !IsAbs(p) then p
    else
      var rel := Rel(base, p);
      if HasPrefix(rel, "..") then p else "./" + rel
  }

  function ResolvePath(base: string, p: string): string
    requires IsAbs(base)
  {
    if p == "" then ""
    else if IsAbs(p) then p
    else CleanAbs(base + "/" + p)
  }

  /** p lies under base and its first step below it does not begin with two dots. */
  predicate Beneath(base: string, p: string)
    requires IsAbs(base) && IsAbs(p)
  {
    var b, t := Elements(base), Elements(p);
    b <= t && (|b| < |t| ==> !HasPrefix(t[|b|], ".."))
  }

  /** What relativize followed by resolvePath keeps. */
  predicate RoundTrips(base: string, p: string)
    requires IsAbs(base)
  {
    p == "" || (IsAbs(p) && (CleanAbs(p) == p || !Beneath(base, p)))
  }

  ghost predicate Proper(elements: seq<string>) {
    forall i | 0 <= i < |elements| ::
      elements[i] != "" && elements[i] != "." && elements[i] != ".." && '/' !in elements[i]
  }

  lemma {:induction false} WalkProper(kept: seq<string>, elements: seq<string>)
    requires Proper(kept)
    requires forall i | 0 <= i < |elements| :: '/' !in elements[i]
    ensures Proper(Walk(kept, elements))
    decreases |elements|
  {
    if elements != [] {
      WalkProper(Enter(kept, elements[0]), elements[1..]);
    }
  }

  lemma {:induction false} WalkConcat(kept: seq<string>, a: seq<string>, b: seq<string>)
    ensures Walk(kept, a + b) == Walk(Walk(kept, a), b)
    decreases |a|
  {
    if a == [] {
      assert a + b == b;
    } else {
      assert (a + b)[1..] == a[1..] + b;
      WalkConcat(Enter(kept, a[0]), a[1..], b);
    }
  }

  lemma {:induction false} WalkOfProper(kept: seq<string>, elements: seq<string>)
    requires Proper(elements)
    ensures Walk(kept, elements) == kept + elements
    decreases |elements|
  {
    if elements != [] {
      WalkOfProper(kept + [elements[0]], elements[1..]);
      assert kept + [elements[0]] + elements[1..] == kept + elements;
    } else {
      assert kept + elements == kept;
    }
  }

  /** Joining a relative path below base continues the walk from base. */
  lemma ElementsOfJoined(base: string, q: string)
    requires IsAbs(base)
    ensures IsAbs(base + "/" + q) && Elements(base + "/" + q) == Walk(Elements(base), Split(q, '/'))
  {
    var p := base + "/" + q;
    assert p[1..] == base[1..] + ['/'] + q;
    SplitConcat(base[1..], q, '/');
    WalkConcat([], Split(base[1..], '/'), Split(q, '/'));
  }

  /** One more element on a rooted path: nothing and "." leave it where it is, ".." goes up unless it is
      at the root, and anything else goes down; the cleaned path lists the elements behind slashes. */
  lemma CleanStep(base: string, x: string)
    requires IsAbs(base) && '/' !in x
    ensures var b := Elements(base);
      Elements(base + "/" + x) == if x == "" || x == "." then b else if x == ".." then (if b == [] then [] else b[..|b| - 1])
                                  else b + [x]
    ensures CleanAbs(base) == if Elements(base) == [] then "/" else "/" + Join(Elements(base), '/')
    ensures Elements("/") == []
  {
    hide Join;
    ElementsOfJoined(base, x);
    SplitNoSep(x, '/');
    assert [x][1..] == [];
    assert Walk(Elements(base), [x]) == Walk(Enter(Elements(base), x), []);
    SplitNoSep("", '/');
    assert "/"[1..] == "" && [""][1..] == [];
    assert Walk([], [""]) == Walk(Enter([], ""), []);
  }

  lemma TwoDots(s: string)
    ensures HasPrefix(s, "..") <==> |s| >= 2 && s[0] == '.' && s[1] == '.'
  {
    if |s| >= 2 && s[0] == '.' && s[1] == '.' {
      assert s[..2] == "..";
    } else if |s| >= 2 {
      assert s[..2][0] == s[0] && s[..2][1] == s[1];
    }
  }

  lemma JoinStart(xs: seq<string>)
    requires |xs| >= 1 && xs[0] != "" && '/' !in xs[0]
    ensures HasPrefix(Join(xs, '/'), "..") <==> HasPrefix(xs[0], "..")
  {
    TwoDots(xs[0]);
    TwoDots(Join(xs, '/'));
    if |xs| > 1 {
      assert Join(xs, '/') == xs[0] + (['/'] + Join(xs[1..], '/'));
    }
  }

  lemma RelUnder(base: string, p: string)
    requires IsAbs(base) && IsAbs(p)
    ensures HasPrefix(Rel(base, p), "..") <==> !Beneath(base, p)
    ensures Beneath(base, p) ==>
      Rel(base, p) == if |Elements(p)| == |Elements(base)| then "." else Join(Elements(p)[|Elements(base)|..], '/')
  {
    var b, t := Elements(base), Elements(p);
    var n := CommonPrefix(b, t);
    WalkProper([], Split(p[1..], '/'));
    var steps := seq(|b| - n, i => "..") + t[n..];
    if n < |b| {
      assert steps[0] == "..";
      TwoDots("..");
      JoinStart(steps);
    } else {
      assert b == t[..n] && b <= t;
      assert steps == t[n..];
      TwoDots(".");
      if steps != [] { JoinStart(steps); }
    }
  }

  lemma ResolveBeneath(base: string, p: string)
    requires IsAbs(base) && IsAbs(p) && Beneath(base, p)
    ensures CleanAbs(base + "/" + ("./" + Rel(base, p))) == CleanAbs(p)
  {
    hide Join, Split, Walk, Rel;
    var b, t := Elements(base), Elements(p);
    var rest, rel := t[|b|..], Rel(base, p);
    RelUnder(base, p);
    WalkProper([], Split(p[1..], '/'));
    var steps := if rest == [] then ["."] else rest;
    JoinOne(".");
    assert rel == Join(steps, '/');
    SplitOfHere(steps);
    ElementsOfJoined(base, "./" + rel);
    WalkFromHere(b, steps, rest);
    assert b + rest == t;
  }

  lemma JoinOne(x: string)
    ensures Join([x], '/') == x
  {
  }

  lemma SplitOfHere(steps: seq<string>)
    requires |steps| >= 1 && forall i | 0 <= i < |steps| :: '/' !in steps[i]
    ensures Split("./" + Join(steps, '/'), '/') == ["."] + steps
  {
    hide Join, Split;
    SplitJoin(steps, '/');
    assert "./" + Join(steps, '/') == "." + ['/'] + Join(steps, '/');
    SplitConcat(".", Join(steps, '/'), '/');
    SplitNoSep(".", '/');
  }

  lemma WalkFromHere(kept: seq<string>, steps: seq<string>, rest: seq<string>)
    requires Proper(rest)
    requires steps == if rest == [] then ["."] else rest
    ensures Walk(kept, ["."] + steps) == kept + rest
  {
    assert (["."] + steps)[1..] == steps;
    if rest == [] {
      assert kept + rest == kept;
      assert Walk(kept, ["."] + steps) == Walk(kept, steps) == Walk(kept, steps[1..]);
    } else {
      WalkOfProper(kept, rest);
    }
  }

  /** What is written for a rooted path: below the fleet directory, the steps down from it behind "./"; the
      directory itself as "./."; any other path as it is. */
  lemma RelativizeMeans(base: string, p: string)
    requires IsAbs(base) && IsAbs(p)
    ensures var b, t, w := Elements(base), Elements(p), Relativize(base, p);
      && (b == t ==> w == "./.")
      && (b < t && !(|t[|b|]| >= 2 && t[|b|][0] == '.' && t[|b|][1] == '.') ==> w == "./" + Join(t[|b|..], '/'))
      && (!(b <= t) || (b < t && |t[|b|]| >= 2 && t[|b|][0] == '.' && t[|b|][1] == '.') ==> w == p)
  {
    hide Join, Elements, Rel;
    RelUnder(base, p);
    var b, t := Elements(base), Elements(p);
    if b < t { TwoDots(t[|b|]); }
  }

  /** Save writes relativize(p) and reload reads resolvePath of it. The path comes back unchanged
      exactly when it is empty, or rooted and either already clean or not below the fleet
      directory: an unclean rooted path below it is rewritten. */
  lemma ResolveOfRelativize(base: string, p: string)
    requires IsAbs(base) && CleanAbs(base) == base
    ensures ResolvePath(base, Relativize(base, p)) == p <==> RoundTrips(base, p)
    ensures IsAbs(p) && Beneath(base, p) ==> ResolvePath(base, Relativize(base, p)) == CleanAbs(p)
  {
    if IsAbs(p) {
      RelUnder(base, p);
      if Beneath(base, p) {
        ResolveBeneath(base, p);
      }
    }
  }

  /** Empty or rooted: the paths that the HTTP layer makes of a request and that reload makes of a
      file entry. */
  predicate Settled(p: string) {
    p == "" || IsAbs(p)
  }

  /** Even where the path itself is rewritten, the entry in the file is not: what reload read is
      written back as it stood. */
  lemma EntryStands(base: string, p: string)
    requires IsAbs(base) && CleanAbs(base) == base && Settled(p)
    ensures var q := ResolvePath(base, Relativize(base, p));
      Settled(q) && Relativize(base, q) == Relativize(base, p)
  {
    if IsAbs(p) {
      RelUnder(base, p);
      if Beneath(base, p) {
        ResolveBeneath(base, p);
        ElementsOfClean(p);
      }
    }
  }

  /** What reload made of the entry e survives a later save and reload exactly when e is empty, or
      relative, or rooted and round trips: reload keeps a rooted entry as it was written, and an
      unclean one below the fleet directory is rewritten by the save. */
  lemma ReloadedPathStays(base: string, e: string)
    requires IsAbs(base) && CleanAbs(base) == base
    ensures var q := ResolvePath(base, e);
      ResolvePath(base, Relativize(base, q)) == q <==> !IsAbs(e) || RoundTrips(base, e)
  {
    var q := ResolvePath(base, e);
    ResolveOfRelativize(base, q);
    if e != "" && !IsAbs(e) { CleanIsClean(base + "/" + e); }
  }

  lemma CleanIsClean(p: string)
    requires IsAbs(p)
    ensures CleanAbs(CleanAbs(p)) == CleanAbs(p)
  {
    ElementsOfClean(p);
  }

  lemma ElementsOfClean(p: string)
    requires IsAbs(p)
    ensures IsAbs(CleanAbs(p)) && Elements(CleanAbs(p)) == Elements(p)
  {
    var t := Elements(p);
    WalkProper([], Split(p[1..], '/'));
    if t != [] {
      assert Rooted(t)[1..] == Join(t, '/');
      SplitJoin(t, '/');
      WalkOfProper([], t);
      assert [] + t == t;
    } else {
      SplitNoSep("", '/');
      assert Walk([], [""]) == Walk([], [""][1..]);
    }
  }
}
