/** The email check of the lead form: the trimmed address must match
    ^[^\s@]+@[^\s@]+\.[^\s@]+$ (src/Landing.tsx, isEmailValid). */
module EmailCheck {
  import opened Text

  /** The regex character class [^\s@]. Note that it admits '.'. */
  predicate IsAddrChar(c: char) {
    !IsWs(c) && c != '@'
  }

  predicate AddrChars(s: string) {
    forall i :: 0 <= i < |s| ==> IsAddrChar(s[i])
  }

  /** The regex fragment [^\s@]+ matches the whole of s. */
  predicate AddrRun(s: string) {
    |s| > 0 && AddrChars(s)
  }

  /** The three runs of the pattern, with the '@' at index `at` and the
      literal '.' at index `dot`. */
  predicate PatternSplit(e: string, at: nat, dot: nat)
    requires at < dot < |e|
  {
    && e[at] == '@' && e[dot] == '.'
    && AddrRun(e[..at]) && AddrRun(e[at + 1..dot]) && AddrRun(e[dot + 1..])
  }

  /** The anchored regex ^[^\s@]+@[^\s@]+\.[^\s@]+$ matches e. */
  predicate MatchesPattern(e: string) {
    exists at: nat, dot: nat | at < dot < |e| :: PatternSplit(e, at, dot)
  }

  /** isEmailValid: the pattern is tested against the trimmed address. */
  predicate IsEmailValid(email: string) {
    MatchesPattern(Trim(email))
  }

  /** A domain as the pattern accepts it: no whitespace or '@', and a '.'
      that is neither its first nor its last character. */
  predicate DomainPart(d: string) {
    AddrChars(d) && exists i | 0 < i < |d| - 1 :: d[i] == '.'
  }

  /** The address splits at an '@' into a local part and a domain. */
  predicate SplitsAt(e: string, a: nat)
    requires a < |e|
  {
    e[a] == '@' && AddrRun(e[..a]) && DomainPart(e[a + 1..])
  }

  /** The pattern means: a non-empty local part, one '@', and a domain with
      an interior '.', none of them holding whitespace or a further '@'. */
  lemma PatternStructure(e: string)
    ensures MatchesPattern(e) <==> exists a: nat | a < |e| :: SplitsAt(e, a)
  {
    if MatchesPattern(e) {
      var at: nat, dot: nat :| at < dot < |e| && PatternSplit(e, at, dot);
      var d := e[at + 1..];
      assert d == e[at + 1..dot] + [e[dot]] + e[dot + 1..];
      assert d[dot - at - 1] == '.';
      assert SplitsAt(e, at);
    }
    if a: nat :| a < |e| && SplitsAt(e, a) {
      var d := e[a + 1..];
      var i :| 0 < i < |d| - 1 && d[i] == '.';
      var dot := a + 1 + i;
      assert e[a + 1..dot] == d[..i];
      assert e[dot + 1..] == d[i + 1..];
      assert PatternSplit(e, a, dot);
    }
  }

  /** Number of occurrences of c in s. */
  function Count(s: string, c: char): (n: nat)
    ensures n <= |s|
    ensures n == 0 <==> c !in s
  {
    if s == [] then 0 else (if s[0] == c then 1 else 0) + Count(s[1..], c)
  }

  lemma {:induction false} CountAppend(s: string, t: string, c: char)
    ensures Count(s + t, c) == Count(s, c) + Count(t, c)
  {
    if s == [] {
      assert s + t == t;
    } else {
      assert (s + t)[1..] == s[1..] + t;
      CountAppend(s[1..], t, c);
    }
  }

  /** A valid address holds exactly one '@'. */
  lemma ExactlyOneAt(e: string)
    requires MatchesPattern(e)
    ensures Count(e, '@') == 1
  {
    var at: nat, dot: nat :| at < dot < |e| && PatternSplit(e, at, dot);
    assert e == e[..at] + [e[at]] + e[at + 1..];
    assert '@' !in e[..at];
    assert '@' !in e[at + 1..] by {
      assert e[at + 1..] == e[at + 1..dot] + [e[dot]] + e[dot + 1..];
    }
    CountAppend(e[..at] + [e[at]], e[at + 1..], '@');
    CountAppend(e[..at], [e[at]], '@');
  }

  /** Trimming removes whitespace only, so it never changes the number of '@'. */
  lemma TrimKeepsAtCount(s: string)
    ensures Count(Trim(s), '@') == Count(s, '@')
  {
    var r := Trim(s);
    var k := TrimInfix(s);
    CountAroundInfix(s, k, r);
  }

  lemma CountAroundInfix(s: string, k: nat, r: string)
    requires k + |r| <= |s| && r == s[k..k + |r|]
    requires AllWs(s[..k]) && AllWs(s[k + |r|..])
    ensures Count(r, '@') == Count(s, '@')
  {
    var p, q := s[..k], s[k + |r|..];
    assert s == p + r + q;
    CountAppend(p + r, q, '@');
    CountAppend(p, r, '@');
    WsHasNoAt(p);
    WsHasNoAt(q);
  }

  lemma WsHasNoAt(w: string)
    requires AllWs(w)
    ensures Count(w, '@') == 0
  {
  }

  /** Any address with no '@', or with two or more, is rejected. */
  lemma RejectsUnlessOneAt(email: string)
    requires Count(email, '@') != 1
    ensures !IsEmailValid(email)
  {
    TrimKeepsAtCount(email);
    if IsEmailValid(email) {
      ExactlyOneAt(Trim(email));
    }
  }

  /** Surrounding whitespace never changes whether an address is valid. */
  lemma ValidityIgnoresPadding(p: string, email: string, q: string)
    requires AllWs(p) && AllWs(q)
    ensures IsEmailValid(p + email + q) == IsEmailValid(email)
  {
    TrimPadded(p, email, q);
  }

  /** Validity of an address and of its trimmed form agree. */
  lemma ValidityIgnoresTrim(email: string)
    ensures IsEmailValid(Trim(email)) == IsEmailValid(email)
  {
    TrimIdempotent(email);
    assert Trim(Trim(email)) == Trim(email);
  }

  /** The pattern matches local@host.tld when the three parts are runs of [^\s@]. */
  lemma ThreeRunsMatch(local: string, host: string, tld: string)
    requires AddrRun(local) && AddrRun(host) && AddrRun(tld)
    ensures MatchesPattern(local + "@" + host + "." + tld)
  {
    var e := local + "@" + host + "." + tld;
    var at, dot := |local|, |local| + 1 + |host|;
    assert e[..at] == local && e[at + 1..dot] == host && e[dot + 1..] == tld;
    assert PatternSplit(e, at, dot);
  }

  /** Every local@host.tld whose three parts are non-empty and free of
      whitespace and '@' is accepted, with any whitespace around it. */
  lemma AcceptsThreeRuns(p: string, local: string, host: string, tld: string, q: string)
    requires AddrRun(local) && AddrRun(host) && AddrRun(tld)
    requires AllWs(p) && AllWs(q)
    ensures IsEmailValid(p + local + "@" + host + "." + tld + q)
  {
    var e := local + "@" + host + "." + tld;
    assert p + local + "@" + host + "." + tld + q == p + e + q;
    assert e[0] == local[0] && e[|e| - 1] == tld[|tld| - 1];
    TrimPadded(p, e, q);
    TrimOfTrimmed(e);
    ThreeRunsMatch(local, host, tld);
  }
}
