/** Callback tokens: an expiry and a keyed signature over the machine's MAC and that expiry. */
module Token {
  import opened Numbers
  import opened Text
  import Mac

  datatype Verdict = Valid | Malformed | Mismatch | Expired

  /** The keyed hash as hex: ideal when no two messages share one. */
  type Hmac = string -> string

  ghost predicate Ideal(hmac: Hmac) {
    (forall x, y :: hmac(x) == hmac(y) ==> x == y) && forall x :: hmac(x) != ""
  }

  const SECOND := 1_000_000_000

  /** From the Unix epoch back to the year one, where Go counts its seconds from. */
  const YEAR_ONE := 62_135_596_800

  /** Times are nanoseconds of the Unix clock. Unix() drops the fraction downwards. */
  function Expiry(now: int, ttl: int): int {
    (now + ttl) / SECOND
  }

  /** Seconds that a time.Time can hold. */
  predicate Representable(exp: int) {
    InInt64(exp) && InInt64(exp + YEAR_ONE)
  }

  /** now.Before(time.Unix(exp, 0)). The second wraps around when it is past what a Time holds. */
  predicate BeforeSecond(now: int, exp: int) {
    now / SECOND + YEAR_ONE < Wrap(exp + YEAR_ONE)
  }

  function Message(canon: string, exp: int): string {
    canon + "." + FormatInt(exp)
  }

  function Mint(hmac: Hmac, canon: string, now: int, ttl: int): string {
    FormatInt(Expiry(now, ttl)) + "." + hmac(Message(canon, Expiry(now, ttl)))
  }

  /** strings.IndexByte: the first place of c, or -1. */
  function IndexByte(s: string, c: char): (i: int)
    ensures i == -1 ==> c !in s
    ensures i != -1 ==> 0 <= i < |s| && s[i] == c && c !in s[..i]
  {
    if s == "" then -1
    else if s[0] == c then 0
    else
      var i := IndexByte(s[1..], c);
      if i == -1 then -1
      else
        assert s[..i + 1] == [s[0]] + s[1..][..i];
        i + 1
  }

  function Verify(hmac: Hmac, canon: string, token: string, now: int): Verdict {
    var dot := IndexByte(token, '.');
    if dot <= 0 || dot == |token| - 1 then Malformed
    else
      match ParseInt(token[..dot])
      case NotANumber => Malformed
      case Number(exp) =>
        if token[dot + 1..] != hmac(Message(canon, exp)) then Mismatch
        else if !BeforeSecond(now, exp) then Expired
        else Valid
  }

  lemma SplitAtDot(a: string, b: string)
    requires '.' !in a
    ensures IndexByte(a + "." + b, '.') == |a|
    ensures (a + "." + b)[..|a|] == a && (a + "." + b)[|a| + 1..] == b
  {
    var t := a + "." + b;
    var i := IndexByte(t, '.');
    assert t[|a|] == '.';
    assert forall k | 0 <= k < |a| :: t[k] == a[k];
  }

  lemma CanonicalHasNoDot(canon: string)
    requires Mac.IsCanonical(canon)
    ensures '.' !in canon
  {
    var o :| Mac.IsOctets(o) && canon == Mac.Colon(o);
    forall i | 0 <= i < 17 ensures canon[i] != '.' {
      assert canon[i] == ':' || Mac.IsHex(canon[i]);
    }
  }

  lemma MessageInjective(a: string, m: int, b: string, n: int)
    requires Mac.IsCanonical(a) && Mac.IsCanonical(b)
    requires Message(a, m) == Message(b, n)
    ensures a == b && m == n
  {
    CanonicalHasNoDot(a);
    CanonicalHasNoDot(b);
    FirstField(a, FormatInt(m), b, FormatInt(n), '.');
    FormatInjective(m, n);
  }

  lemma ValidByMessage(hmac: Hmac, canon: string, token: string, now: int)
    requires Ideal(hmac)
    ensures Verify(hmac, canon, token, now) == Valid <==>
            exists spelling, exp: int ::
              && ParseInt(spelling) == Number(exp) && BeforeSecond(now, exp)
              && token == spelling + "." + hmac(Message(canon, exp))
  {
    hide Message, BeforeSecond, Mac.IsCanonical;
    if Verify(hmac, canon, token, now) == Valid {
      var dot := IndexByte(token, '.');
      var spelling, exp := token[..dot], ParseInt(token[..dot]).value;
      assert token == spelling + "." + hmac(Message(canon, exp));
    }
    forall spelling, exp: int |
      && ParseInt(spelling) == Number(exp) && BeforeSecond(now, exp)
      && token == spelling + "." + hmac(Message(canon, exp))
      ensures Verify(hmac, canon, token, now) == Valid
    {
      NumberHasNoDot(spelling);
      SplitAtDot(spelling, hmac(Message(canon, exp)));
    }
  }

  /** Exactly which tokens are valid: some spelling of an expiry still ahead, one dot, and the
      signature over the MAC and that expiry. */
  lemma ValidTokens(hmac: Hmac, canon: string, token: string, now: int)
    requires Ideal(hmac)
    ensures Verify(hmac, canon, token, now) == Valid <==>
            exists spelling, exp: int ::
              && ParseInt(spelling) == Number(exp) && BeforeSecond(now, exp)
              && token == spelling + "." + hmac(canon + "." + FormatInt(exp))
  {
    hide ParseInt, BeforeSecond, Verify, FormatInt;
    ValidByMessage(hmac, canon, token, now);
    forall e: int ensures Message(canon, e) == canon + "." + FormatInt(e) {}
  }

  lemma NumberHasNoDot(s: string)
    requires ParseInt(s).Number?
    ensures s != "" && '.' !in s
  {
    if s[0] == '+' || s[0] == '-' { assert s == [s[0]] + s[1..]; }
  }

  lemma Floors(t: int, exp: int)
    ensures t / SECOND < exp <==> t < exp * SECOND
  {
  }

  /** A token minted for one machine verifies for a machine, at a time, exactly if it is the same
      machine and the time is before the second in which the ttl runs out; otherwise it is a mismatch
      for another machine, and has expired for its own. */
  lemma MintThenVerify(hmac: Hmac, a: string, b: string, mintedAt: int, ttl: int, t: int)
    requires Ideal(hmac) && Mac.IsCanonical(a) && Mac.IsCanonical(b)
    requires Representable(Expiry(mintedAt, ttl))
    ensures var end := (mintedAt + ttl) / 1_000_000_000 * 1_000_000_000;
      Verify(hmac, b, Mint(hmac, a, mintedAt, ttl), t) == if a != b then Mismatch else if t < end then Valid else Expired
  {
    hide Mac.IsCanonical, Message;
    var exp := Expiry(mintedAt, ttl);
    SplitAtDot(FormatInt(exp), hmac(Message(a, exp)));
    ParseOfFormat(exp);
    Floors(t, exp);
    if a != b && Message(a, exp) == Message(b, exp) { MessageInjective(a, exp, b, exp); }
  }

  // ----- the middleware in front of the callbacks -----

  datatype Answer = Pass | BadRequest | Forbidden

  /** requireCallbackToken. tokens: None while the feature is off. */
  datatype Tokens = Off | On(hmac: Hmac, required: bool)

  function Guard(tokens: Tokens, pathMac: string, token: string, now: int): Answer {
    if tokens.Off? then Pass
    else
      match Mac.CanonicalMac(pathMac)
      case Bad => BadRequest
      case Good(canon) =>
        if token == "" then (if tokens.required then Forbidden else Pass)
        else if Verify(tokens.hmac, canon, token, now) != Valid then Forbidden
        else Pass
  }

  /** A call with a minted token gets through, while tokens are on, exactly if its path spells the
      MAC the token was minted for, in any accepted spelling, before the token expires. */
  lemma {:induction false} GuardAdmitsTheMinted(tokens: Tokens, a: string, mintedAt: int, ttl: int, pathMac: string, t: int)
    requires tokens.On? && Ideal(tokens.hmac) && Mac.IsCanonical(a) && Representable(Expiry(mintedAt, ttl))
    ensures Guard(tokens, pathMac, Mint(tokens.hmac, a, mintedAt, ttl), t) == Pass <==>
            Mac.CanonicalMac(pathMac) == Mac.Good(a) && t < (mintedAt + ttl) / 1_000_000_000 * 1_000_000_000
  {
    hide Verify, Mint, Mac.CanonicalMac;
    var token := Mint(tokens.hmac, a, mintedAt, ttl);
    MintIsNotEmpty(tokens.hmac, a, mintedAt, ttl);
    if Mac.CanonicalMac(pathMac).Good? {
      MintThenVerify(tokens.hmac, a, Mac.CanonicalMac(pathMac).mac, mintedAt, ttl, t);
    }
  }

  lemma MintIsNotEmpty(hmac: Hmac, a: string, now: int, ttl: int)
    ensures Mint(hmac, a, now, ttl) != ""
  {
  }

  /** With tokens off every call passes; otherwise a path that spells no MAC is a bad request, before any
      token is looked at, and whoever else does not pass is forbidden. */
  lemma GuardAnswers(tokens: Tokens, pathMac: string, token: string, t: int)
    ensures tokens.Off? ==> Guard(tokens, pathMac, token, t) == Pass
    ensures Guard(tokens, pathMac, token, t) == BadRequest <==> tokens.On? && forall canon :: !Mac.Denotes(pathMac, canon)
    ensures Guard(tokens, pathMac, "", t) == Forbidden <==>
            tokens.On? && tokens.required && exists canon :: Mac.Denotes(pathMac, canon)
  {
    hide Mac.CanonicalMac, Mac.Denotes, Verify;
    Mac.CanonicalMacDenotes(pathMac);
  }

  /** Only an absent token is a matter of policy: turning enforcement on changes the answer to calls
      without one and to no other, and under either policy a call that carries a token passes
      exactly if the token is valid for the MAC of its path. */
  lemma OnlyMissingTokensDependOnPolicy(hmac: Hmac, pathMac: string, token: string, t: int)
    ensures var advisory, enforced := Guard(On(hmac, false), pathMac, token, t), Guard(On(hmac, true), pathMac, token, t);
      && (advisory != enforced <==> token == "" && Mac.CanonicalMac(pathMac).Good?)
      && (advisory == Pass && enforced != Pass ==> token == "")
      && (enforced == Pass ==> advisory == Pass)
      && (token != "" && Mac.CanonicalMac(pathMac).Good? ==>
            var v := Verify(hmac, Mac.CanonicalMac(pathMac).mac, token, t);
            (advisory == Pass <==> v == Valid) && (enforced == Pass <==> v == Valid))
  {
  }
}
