/** Strings as the form controller sees them: JavaScript's whitespace set,
    String.prototype.trim, and String.prototype.length (UTF-16 code units). */
module Text {

  /** ECMAScript WhiteSpace and LineTerminator code points. This is both the
      set that String.prototype.trim strips and the set the regex class \s
      matches. */
  predicate IsWs(c: char) {
    || c == '\t' || c == '\n' || c == '\U{000B}' || c == '\U{000C}' || c == '\r'
    || c == ' ' || c == '\U{00A0}' || c == '\U{1680}'
    || ('\U{2000}' <= c <= '\U{200A}')
    || c == '\U{2028}' || c == '\U{2029}' || c == '\U{202F}' || c == '\U{205F}'
    || c == '\U{3000}' || c == '\U{FEFF}'
  }

  predicate AllWs(s: string) {
    forall i :: 0 <= i < |s| ==> IsWs(s[i])
  }

  /** True when s neither starts nor ends with whitespace: the shape of a trimmed string. */
  predicate Trimmed(s: string) {
    s == [] || (!IsWs(s[0]) && !IsWs(s[|s| - 1]))
  }

  /** Drops trailing whitespace: the result is the prefix of s that ends
      at its last non-whitespace character. */
  function TrimEnd(s: string): (r: string)
    ensures |r| <= |s| && r == s[..|r|]
    ensures AllWs(s[|r|..])
    ensures r == [] || !IsWs(r[|r| - 1])
  {
    if |s| > 0 && IsWs(s[|s| - 1]) then
      var r := TrimEnd(s[..|s| - 1]);
      assert s[|r|..] == s[..|s| - 1][|r|..] + [s[|s| - 1]];
      r
    else s
  }

  /** String.prototype.trim: drops the whitespace at the start of s, then
      the whitespace at its end. */
  function Trim(s: string): (r: string)
    ensures Trimmed(r)
    ensures r == [] <==> AllWs(s)
  {
    if |s| > 0 && IsWs(s[0]) then Trim(s[1..]) else TrimEnd(s)
  }

  /** Trim removes whitespace only: its result is an infix of s with
      nothing but whitespace around it. */
  lemma {:induction false} TrimInfix(s: string) returns (k: nat)
    ensures k + |Trim(s)| <= |s| && Trim(s) == s[k..k + |Trim(s)|]
    ensures AllWs(s[..k]) && AllWs(s[k + |Trim(s)|..])
  {
    if |s| > 0 && IsWs(s[0]) {
      var rest := s[1..];
      var j := TrimInfix(rest);
      var t := Trim(rest);
      assert Trim(s) == t;
      assert s == [s[0]] + rest;
      ConsSlices(s[0], rest, j, |t|);
      AllWsCons(s[0], rest[..j]);
      k := j + 1;
    } else {
      var r := TrimEnd(s);
      assert Trim(s) == r;
      assert s[..0] == [];
      k := 0;
    }
  }

  /** Slices of c + rest, shifted by one. */
  lemma ConsSlices(c: char, rest: string, j: nat, m: nat)
    requires j + m <= |rest|
    ensures ([c] + rest)[j + 1..j + 1 + m] == rest[j..j + m]
    ensures ([c] + rest)[j + 1 + m..] == rest[j + m..]
    ensures ([c] + rest)[..j + 1] == [c] + rest[..j]
  {
  }

  lemma AllWsCons(c: char, w: string)
    requires IsWs(c) && AllWs(w)
    ensures AllWs([c] + w)
  {
    assert forall i :: 0 < i <= |w| ==> ([c] + w)[i] == w[i - 1];
  }

  lemma TrimOfTrimmed(s: string)
    requires Trimmed(s)
    ensures Trim(s) == s
  {
  }

  /** Trimming is idempotent. */
  lemma TrimIdempotent(s: string)
    ensures Trim(Trim(s)) == Trim(s)
  {
    TrimOfTrimmed(Trim(s));
  }

  lemma {:induction false} TrimEndPadded(s: string, q: string)
    requires AllWs(q)
    ensures TrimEnd(s + q) == TrimEnd(s)
  {
    if q != [] {
      assert (s + q)[|s + q| - 1] == q[|q| - 1];
      assert (s + q)[..|s + q| - 1] == s + q[..|q| - 1];
      TrimEndPadded(s, q[..|q| - 1]);
    } else {
      assert s + q == s;
    }
  }

  lemma {:induction false} TrimPrefixPadded(p: string, s: string)
    requires AllWs(p)
    ensures Trim(p + s) == Trim(s)
  {
    if p != [] {
      assert (p + s)[0] == p[0];
      assert (p + s)[1..] == p[1..] + s;
      TrimPrefixPadded(p[1..], s);
    } else {
      assert p + s == s;
    }
  }

  lemma {:induction false} TrimSuffixPadded(s: string, q: string)
    requires AllWs(q)
    ensures Trim(s + q) == Trim(s)
  {
    if s == [] {
      assert s + q == q;
    } else if IsWs(s[0]) {
      assert (s + q)[0] == s[0];
      assert (s + q)[1..] == s[1..] + q;
      TrimSuffixPadded(s[1..], q);
    } else {
      assert (s + q)[0] == s[0];
      TrimEndPadded(s, q);
    }
  }

  /** Whitespace around a string never changes what trim returns. */
  lemma TrimPadded(p: string, s: string, q: string)
    requires AllWs(p) && AllWs(q)
    ensures Trim(p + s + q) == Trim(s)
  {
    assert p + s + q == p + (s + q);
    TrimPrefixPadded(p, s + q);
    TrimSuffixPadded(s, q);
  }

  /** String.prototype.length: UTF-16 code units, so a character outside
      the Basic Multilingual Plane counts twice. */
  function Utf16Length(s: string): (n: nat)
    ensures |s| <= n <= 2 * |s|
    ensures (forall i :: 0 <= i < |s| ==> s[i] as int <= 0xFFFF) ==> n == |s|
    ensures |s| == 1 ==> n == (if s[0] as int > 0xFFFF then 2 else 1)
  {
    if s == [] then 0
    else (if s[0] as int > 0xFFFF then 2 else 1) + Utf16Length(s[1..])
  }

  /** The length of a concatenation is the sum of the lengths. */
  lemma {:induction false} Utf16LengthAppend(a: string, b: string)
    ensures Utf16Length(a + b) == Utf16Length(a) + Utf16Length(b)
  {
    if a != [] {
      assert (a + b)[0] == a[0];
      assert (a + b)[1..] == a[1..] + b;
      Utf16LengthAppend(a[1..], b);
    } else {
      assert a + b == b;
    }
  }
}
