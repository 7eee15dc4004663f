/** MAC addresses as text: CanonicalMAC and the net.ParseMAC behaviour it relies on. */
module Mac {

  datatype ParsedMac = Good(mac: string) | Bad

  predicate IsHex(c: char) {
    '0' <= c <= '9' || 'a' <= c <= 'f' || 'A' <= c <= 'F'
  }

  function LowerChar(c: char): (r: char)
    ensures IsHex(r) <==> IsHex(c)
  {
    if 'A' <= c <= 'Z' then (c as int + 32) as char else c
  }

  function Lower(s: string): (r: string)
    ensures |r| == |s|
    ensures forall i | 0 <= i < |s| :: r[i] == LowerChar(s[i])
  {
    seq(|s|, i requires 0 <= i < |s| => LowerChar(s[i]))
  }

  /** Six octets, written as their twelve lowercase hex digits. */
  ghost predicate IsOctets(o: string) {
    |o| == 12 && forall i | 0 <= i < 12 :: IsHex(o[i]) && LowerChar(o[i]) == o[i]
  }

  function Grouped2(o: string, sep: char): (r: string)
    requires |o| == 12
    ensures |r| == 17
  {
    [o[0], o[1], sep, o[2], o[3], sep, o[4], o[5], sep, o[6], o[7], sep, o[8], o[9], sep, o[10], o[11]]
  }

  function Dotted(o: string): (r: string)
    requires |o| == 12
    ensures |r| == 14
  {
    [o[0], o[1], o[2], o[3], '.', o[4], o[5], o[6], o[7], '.', o[8], o[9], o[10], o[11]]
  }

  function Colon(o: string): string
    requires |o| == 12
  {
    Grouped2(o, ':')
  }

  predicate AllHex(s: string) {
    forall i | 0 <= i < |s| :: IsHex(s[i])
  }

  function Digits17(s: string): (r: string)
    requires |s| == 17
    ensures |r| == 12
  {
    [s[0], s[1], s[3], s[4], s[6], s[7], s[9], s[10], s[12], s[13], s[15], s[16]]
  }

  function Digits14(s: string): (r: string)
    requires |s| == 14
    ensures |r| == 12
  {
    [s[0], s[1], s[2], s[3], s[5], s[6], s[7], s[8], s[10], s[11], s[12], s[13]]
  }

  /** net.ParseMAC where it yields six octets: the digits it read, or none. Its eight and
      twenty octet results are errors for every caller here. */
  function ParseMac(s: string): (r: string)
    ensures r == "" || |r| == 12
  {
    if |s| == 17 && (s[2] == ':' || s[2] == '-') then
      if s[5] == s[2] && s[8] == s[2] && s[11] == s[2] && s[14] == s[2] && AllHex(Digits17(s)) then Digits17(s) else ""
    else if |s| == 14 && s[2] != ':' && s[2] != '-' && s[4] == '.' then
      if s[9] == '.' && AllHex(Digits14(s)) then Digits14(s) else ""
    else ""
  }

  /** The input without the blanks and underscores CanonicalMAC drops. */
  function Clean(s: string): string
  {
    if s == "" then ""
    else if s[0] == ' ' || s[0] == '_' then Clean(s[1..])
    else [s[0]] + Clean(s[1..])
  }

  function CanonicalMac(s: string): (r: ParsedMac)
    ensures r.Good? ==> IsCanonical(r.mac)
  {
    if s == "" then Bad
    else
      var hw := ParseMac(s);
      if hw != "" then Canonical(hw)
      else
        var clean := Clean(s);
        if |clean| == 12 then
          var hw2 := ParseMac(Grouped2(clean, ':'));
          if hw2 != "" then Canonical(hw2) else Bad
        else Bad
  }

  function Canonical(hw: string): (r: ParsedMac)
    requires |hw| == 12 && AllHex(hw)
    ensures r.Good? && IsOctets(Lower(hw)) && r.mac == Colon(Lower(hw)) && IsCanonical(r.mac)
  {
    var o := Lower(hw);
    assert forall i | 0 <= i < 12 :: LowerChar(LowerChar(hw[i])) == LowerChar(hw[i]);
    assert IsOctets(o);
    Good(Colon(o))
  }

  /** The form every map in the program is keyed by. */
  ghost predicate IsCanonical(s: string) {
    exists o :: IsOctets(o) && s == Colon(o)
  }

  /** strings.ReplaceAll(mac, ":", "-"), the form used in URLs and by iPXE's hexhyp. */
  function Hyphenated(s: string): (r: string)
    ensures |r| == |s|
    ensures forall i | 0 <= i < |s| :: r[i] == if s[i] == ':' then '-' else s[i]
  {
    seq(|s|, i requires 0 <= i < |s| => if s[i] == ':' then '-' else s[i])
  }

  lemma {:induction false} CleanOfCleanText(s: string)
    requires forall i | 0 <= i < |s| :: s[i] != ' ' && s[i] != '_'
    ensures Clean(s) == s
  {
    if s != "" {
      CleanOfCleanText(s[1..]);
      assert [s[0]] + s[1..] == s;
    }
  }

  lemma {:induction false} LowerOfClean(s: string)
    ensures Lower(Clean(s)) == Clean(Lower(s))
  {
    if s != "" {
      LowerOfClean(s[1..]);
      assert Lower(s)[1..] == Lower(s[1..]);
      if s[0] != ' ' && s[0] != '_' {
        assert Lower([s[0]] + Clean(s[1..])) == [LowerChar(s[0])] + Lower(Clean(s[1..]));
      }
    }
  }

  /** The spellings CanonicalMAC documents, in any letter case: colons, hyphens, dots, or bare
      digits among which blanks and underscores may be strewn. */
  ghost predicate Spells(s: string, o: string)
    requires |o| == 12
  {
    || Lower(s) == Colon(o)
    || Lower(s) == Grouped2(o, '-')
    || Lower(s) == Dotted(o)
    || Clean(Lower(s)) == o
  }

  lemma ColonInjective(o: string, p: string)
    requires |o| == |p| == 12 && Colon(o) == Colon(p)
    ensures o == p
  {
    var c, d := Colon(o), Colon(p);
    assert c[0] == d[0] && c[1] == d[1] && c[3] == d[3] && c[4] == d[4] && c[6] == d[6] && c[7] == d[7];
    assert c[9] == d[9] && c[10] == d[10] && c[12] == d[12] && c[13] == d[13] && c[15] == d[15] && c[16] == d[16];
  }

  lemma LowerDigits17(s: string)
    requires |s| == 17
    ensures Lower(Digits17(s)) == Digits17(Lower(s))
  {
    var d, e := Lower(Digits17(s)), Digits17(Lower(s));
    assert d[0] == e[0] && d[1] == e[1] && d[2] == e[2] && d[3] == e[3] && d[4] == e[4] && d[5] == e[5];
    assert d[6] == e[6] && d[7] == e[7] && d[8] == e[8] && d[9] == e[9] && d[10] == e[10] && d[11] == e[11];
  }

  lemma LowerDigits14(s: string)
    requires |s| == 14
    ensures Lower(Digits14(s)) == Digits14(Lower(s))
  {
    var d, e := Lower(Digits14(s)), Digits14(Lower(s));
    assert d[0] == e[0] && d[1] == e[1] && d[2] == e[2] && d[3] == e[3] && d[4] == e[4] && d[5] == e[5];
    assert d[6] == e[6] && d[7] == e[7] && d[8] == e[8] && d[9] == e[9] && d[10] == e[10] && d[11] == e[11];
  }

  lemma AllHexLower(s: string)
    ensures AllHex(Lower(s)) <==> AllHex(s)
  {
    if AllHex(Lower(s)) {
      forall i | 0 <= i < |s| ensures IsHex(s[i]) { assert IsHex(Lower(s)[i]); }
    }
  }

  lemma SeparatedParses(s: string, o: string, sep: char)
    requires IsOctets(o) && (sep == ':' || sep == '-')
    ensures Lower(s) == Grouped2(o, sep) ==> ParseMac(s) != "" && Lower(ParseMac(s)) == o
  {
    if Lower(s) == Grouped2(o, sep) {
      LowerDigits17(s);
      assert Digits17(Grouped2(o, sep)) == o;
      AllHexLower(Digits17(s));
      var g := Lower(s);
      assert g[2] == sep && g[5] == sep && g[8] == sep && g[11] == sep && g[14] == sep;
    }
  }

  lemma DottedParses(s: string, o: string)
    requires IsOctets(o)
    ensures Lower(s) == Dotted(o) ==> ParseMac(s) != "" && Lower(ParseMac(s)) == o
  {
    if Lower(s) == Dotted(o) {
      LowerDigits14(s);
      assert Digits14(Dotted(o)) == o;
      AllHexLower(Digits14(s));
      var g := Lower(s);
      assert g[2] == o[2] && IsHex(o[2]) && g[4] == '.' && g[9] == '.';
    }
  }

  lemma Regroup17(s: string, sep: char)
    requires |s| == 17 && s[2] == sep && s[5] == sep && s[8] == sep && s[11] == sep && s[14] == sep
    ensures s == Grouped2(Digits17(s), sep)
  {
  }

  lemma Regroup14(s: string)
    requires |s| == 14 && s[4] == '.' && s[9] == '.'
    ensures s == Dotted(Digits14(s))
  {
  }

  /** What ParseMac reads is what the text spells. */
  lemma ParsedSpells(s: string)
    requires ParseMac(s) != ""
    ensures var o := Lower(ParseMac(s));
      IsOctets(o) && (Lower(s) == Colon(o) || Lower(s) == Grouped2(o, '-') || Lower(s) == Dotted(o))
  {
    assert Canonical(ParseMac(s)).Good?;
    if |s| == 17 {
      LowerDigits17(s);
      Regroup17(Lower(s), s[2]);
    } else {
      LowerDigits14(s);
      Regroup14(Lower(s));
    }
  }

  /** Separated digits are not bare digits. */
  lemma SeparatedIsNotBare(s: string, o: string)
    requires IsOctets(o)
    requires s == Colon(o) || s == Grouped2(o, '-') || s == Dotted(o)
    ensures |Clean(s)| != 12
  {
    forall i | 0 <= i < |s| ensures s[i] != ' ' && s[i] != '_' {
      assert s[i] in o || s[i] in [':', '-', '.'];
    }
    CleanOfCleanText(s);
  }

  lemma BareParses(clean: string, o: string)
    requires IsOctets(o) && Lower(clean) == o
    ensures ParseMac(Grouped2(clean, ':')) == clean
  {
    AllHexLower(clean);
    assert Digits17(Grouped2(clean, ':')) == clean;
  }

  lemma BareSpells(clean: string)
    requires |clean| == 12 && ParseMac(Grouped2(clean, ':')) != ""
    ensures ParseMac(Grouped2(clean, ':')) == clean && IsOctets(Lower(clean))
  {
    assert Digits17(Grouped2(clean, ':')) == clean;
    assert Canonical(clean).Good?;
  }

  /** CanonicalMAC accepts exactly the documented spellings, and all spellings of the same six
      octets become the same text. */
  lemma CanonicalMacReads(s: string, o: string)
    requires IsOctets(o)
    ensures CanonicalMac(s) == Good(Colon(o)) <==> Spells(s, o)
  {
    SeparatedParses(s, o, ':');
    SeparatedParses(s, o, '-');
    DottedParses(s, o);
    LowerOfClean(s);
    var hw := ParseMac(s);
    if hw != "" {
      ParsedSpells(s);
      SeparatedIsNotBare(Lower(s), Lower(hw));
      if CanonicalMac(s) == Good(Colon(o)) { ColonInjective(Lower(hw), o); }
    } else {
      var clean := Clean(s);
      if Clean(Lower(s)) == o {
        BareParses(clean, o);
      }
      if |clean| == 12 && ParseMac(Grouped2(clean, ':')) != "" {
        BareSpells(clean);
        if CanonicalMac(s) == Good(Colon(o)) { ColonInjective(Lower(clean), o); }
      }
    }
  }

  /** s is one of the accepted spellings of the machine address that canon writes canonically. */
  ghost predicate Denotes(s: string, canon: string) {
    exists o :: IsOctets(o) && Spells(s, o) && canon == Colon(o)
  }

  lemma CanonicalMacDenotes(s: string)
    ensures CanonicalMac(s).Good? ==> Denotes(s, CanonicalMac(s).mac)
    ensures forall canon :: Denotes(s, canon) ==> CanonicalMac(s) == Good(canon)
  {
    hide CanonicalMac, Spells;
    if CanonicalMac(s).Good? {
      var o :| IsOctets(o) && CanonicalMac(s).mac == Colon(o);
      CanonicalMacReads(s, o);
    }
    forall canon | Denotes(s, canon) ensures CanonicalMac(s) == Good(canon) {
      var o :| IsOctets(o) && Spells(s, o) && canon == Colon(o);
      CanonicalMacReads(s, o);
    }
  }

  /** Cleaning drops blanks and underscores and nothing else. */
  lemma {:induction false} CleanDropsBlanks(s: string, c: char)
    ensures Clean("") == ""
    ensures Clean(s + [c]) == if c == ' ' || c == '_' then Clean(s) else Clean(s) + [c]
    decreases |s|
  {
    if s == "" {
      assert s + [c] == [c];
    } else {
      CleanDropsBlanks(s[1..], c);
      assert (s + [c])[1..] == s[1..] + [c];
    }
  }

  /** A canonical MAC is its own canonical form, and so is its hyphen form from a URL. */
  lemma CanonicalMacFixed(s: string)
    requires IsCanonical(s)
    ensures CanonicalMac(s) == Good(s)
    ensures CanonicalMac(Hyphenated(s)) == Good(s)
  {
    var o :| IsOctets(o) && s == Colon(o);
    assert Lower(s) == s by {
      forall i | 0 <= i < 17 ensures LowerChar(s[i]) == s[i] {
        assert s[i] == ':' || IsHex(s[i]);
        assert forall j | 0 <= j < 12 :: LowerChar(o[j]) == o[j];
      }
    }
    CanonicalMacReads(s, o);
    HyphenForm(o);
    CanonicalMacReads(Hyphenated(s), o);
  }

  lemma HyphenForm(o: string)
    requires IsOctets(o)
    ensures Lower(Hyphenated(Colon(o))) == Grouped2(o, '-')
    ensures Hyphenated(Colon(o)) == Grouped2(o, '-')
  {
    var s, h := Colon(o), Grouped2(o, '-');
    assert forall j | 0 <= j < 12 :: LowerChar(o[j]) == o[j] && IsHex(o[j]);
    assert Hyphenated(s) == h;
    assert Lower(h) == h;
  }

  /** Distinct canonical MACs have distinct hyphen forms, so an iseq line names one machine. */
  lemma HyphenatedInjective(s: string, t: string)
    requires IsCanonical(s) && IsCanonical(t)
    requires Hyphenated(s) == Hyphenated(t)
    ensures s == t
  {
    CanonicalMacFixed(s);
    CanonicalMacFixed(t);
  }
}
