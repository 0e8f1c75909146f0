/**
 * The JavaScript built-ins the registration handler relies on:
 * `Array.prototype.find`, `String.prototype.trim` and the decimal rendering of a
 * number inside a template literal.
 */
module Builtins {
  // ---------------------------------------------------------------- find

  /** `xs.find(p)`, as the index of the element it returns: the first element
      satisfying `p`, or `|xs|` when there is none (where `find` gives `undefined`). */
  function FindFirst<T>(xs: seq<T>, p: T -> bool): (i: nat)
    ensures i <= |xs|
    ensures i < |xs| ==> p(xs[i])
    ensures forall j :: 0 <= j < i ==> !p(xs[j])
    decreases |xs|
  {
    if |xs| == 0 then 0
    else if p(xs[0]) then 0
    else 1 + FindFirst(xs[1..], p)
  }

  // ---------------------------------------------------------------- trim

  /**
   * The characters `trim` removes: ECMAScript WhiteSpace (tab, vertical tab,
   * form feed, space, no-break space, byte-order mark and the Unicode
   * space separators) and LineTerminator (line feed, carriage return, line and
   * paragraph separator).
   */
  predicate IsWs(c: char) {
    c in {'\t', '\n', '\U{B}', '\U{C}', '\r', ' ', '\U{A0}', '\U{1680}',
          '\U{2000}', '\U{2001}', '\U{2002}', '\U{2003}', '\U{2004}', '\U{2005}',
          '\U{2006}', '\U{2007}', '\U{2008}', '\U{2009}', '\U{200A}',
          '\U{2028}', '\U{2029}', '\U{202F}', '\U{205F}', '\U{3000}', '\U{FEFF}'}
  }

  predicate AllWs(s: string) {
    forall i :: 0 <= i < |s| ==> IsWs(s[i])
  }

  /** Neither starts nor ends with whitespace: what `trim` leaves behind. */
  predicate IsTrimmed(s: string) {
    |s| == 0 || (!IsWs(s[0]) && !IsWs(s[|s| - 1]))
  }

  /** `s.trim()`: drops the whitespace at both ends. */
  function Trim(s: string): (r: string)
    ensures IsTrimmed(r)
    ensures |r| <= |s|
    ensures IsTrimmed(s) ==> r == s
    decreases |s|
  {
    if |s| > 0 && IsWs(s[0]) then Trim(s[1..])
    else if |s| > 0 && IsWs(s[|s| - 1]) then Trim(s[..|s| - 1])
    else s
  }

  /** `trim` changes a string exactly when it starts or ends with whitespace. */
  lemma TrimFixedPoint(s: string)
    ensures Trim(s) == s <==> IsTrimmed(s)
  {
  }

  /** Trimming twice is trimming once. */
  lemma TrimIdempotent(s: string)
    ensures Trim(Trim(s)) == Trim(s)
  {
  }

  /** How many leading characters `trim` drops. */
  function TrimOffset(s: string): (n: nat)
    ensures n <= |s|
    decreases |s|
  {
    if |s| > 0 && IsWs(s[0]) then 1 + TrimOffset(s[1..])
    else if |s| > 0 && IsWs(s[|s| - 1]) then TrimOffset(s[..|s| - 1])
    else 0
  }

  /** `r` sits in `s` at offset `i` with nothing but whitespace around it. */
  predicate SitsIn(r: string, s: string, i: nat) {
    && i + |r| <= |s|
    && r == s[i..i + |r|]
    && AllWs(s[..i]) && AllWs(s[i + |r|..])
  }

  /** What `trim` removes is whitespace, from the two ends only: its result is a
      slice of the input with nothing but whitespace on either side. */
  lemma {:induction false} TrimRemovesOnlyEnds(s: string)
    ensures SitsIn(Trim(s), s, TrimOffset(s))
    decreases |s|
  {
    if |s| > 0 && IsWs(s[0]) {
      TrimRemovesOnlyEnds(s[1..]);
      SitsInAfterLeading(Trim(s), s, TrimOffset(s[1..]));
    } else if |s| > 0 && IsWs(s[|s| - 1]) {
      TrimRemovesOnlyEnds(s[..|s| - 1]);
      SitsInAfterTrailing(Trim(s), s, TrimOffset(s));
    } else {
      assert s[0..|s|] == s;
    }
  }

  lemma SitsInAfterLeading(r: string, s: string, i: nat)
    requires |s| > 0 && IsWs(s[0]) && SitsIn(r, s[1..], i)
    ensures SitsIn(r, s, i + 1)
  {
    assert s[..i + 1] == [s[0]] + s[1..][..i];
    assert s[i + 1 + |r|..] == s[1..][i + |r|..];
  }

  lemma SitsInAfterTrailing(r: string, s: string, i: nat)
    requires |s| > 0 && IsWs(s[|s| - 1]) && SitsIn(r, s[..|s| - 1], i)
    ensures SitsIn(r, s, i)
  {
    assert s[..i] == s[..|s| - 1][..i];
    assert s[i + |r|..] == s[..|s| - 1][i + |r|..] + [s[|s| - 1]];
  }

  /** `trim` gives the empty string exactly when the input is all whitespace. */
  lemma TrimEmpty(s: string)
    ensures Trim(s) == [] <==> AllWs(s)
  {
    TrimRemovesOnlyEnds(s);
    if AllWs(s) && |s| > 0 {
      AllWsTrimsToEmpty(s);
    }
  }

  lemma {:induction false} AllWsTrimsToEmpty(s: string)
    requires AllWs(s)
    ensures Trim(s) == []
    decreases |s|
  {
    if |s| > 0 {
      assert AllWs(s[1..]);
      AllWsTrimsToEmpty(s[1..]);
    }
  }

  // ---------------------------------------------------------------- numbers

  function DigitChar(d: nat): (c: char)
    requires d < 10
    ensures '0' <= c <= '9'
  {
    "0123456789"[d]
  }

  /** `${n}` for a non-negative integer: its decimal digits, most significant first. */
  function NatToString(n: nat): (r: string)
    ensures |r| >= 1
    ensures forall i :: 0 <= i < |r| ==> '0' <= r[i] <= '9'
    ensures n >= 10 ==> r[0] != '0'
  {
    if n < 10 then [DigitChar(n)] else NatToString(n / 10) + [DigitChar(n % 10)]
  }
}
