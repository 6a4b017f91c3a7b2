/** String helpers with Java's meaning: decimal rendering, `contains`, joining and splitting. */
module Text {

  predicate IsDigit(c: char) { '0' <= c <= '9' }

  function DigitChar(d: nat): (c: char)
    requires d < 10
    ensures IsDigit(c)
  {
    ['0', '1', '2', '3', '4', '5', '6', '7', '8', '9'][d]
  }

  function DigitValue(c: char): (d: nat)
    requires IsDigit(c)
    ensures d < 10
  {
    (c as int - '0' as int) as nat
  }

  /** `String.valueOf(n)` for a non-negative integer: its decimal digits, no leading zero. */
  function NatToString(n: nat): (s: string)
    decreases n
  {
    if n < 10 then [DigitChar(n)] else NatToString(n / 10) + [DigitChar(n % 10)]
  }

  /** Reads back a string of decimal digits. */
  function ParseDigits(s: string): (n: nat)
    requires forall i :: 0 <= i < |s| ==> IsDigit(s[i])
  {
    if s == [] then 0 else 10 * ParseDigits(s[..|s| - 1]) + DigitValue(s[|s| - 1])
  }

  /** `Integer.toString` / `Long.toString`: a '-' sign for negative values. */
  function IntToString(n: int): (s: string)
  {
    if n < 0 then "-" + NatToString(-n) else NatToString(n)
  }

  lemma {:induction false} NatToStringDigits(n: nat)
    ensures |NatToString(n)| > 0
    ensures forall i :: 0 <= i < |NatToString(n)| ==> IsDigit(NatToString(n)[i])
    ensures |NatToString(n)| > 1 ==> NatToString(n)[0] != '0'
    decreases n
  {
    if n >= 10 {
      NatToStringDigits(n / 10);
    }
  }

  /** Decimal rendering is injective: parsing the digits gives the number back. */
  lemma {:induction false} NatToStringRoundTrip(n: nat)
    ensures forall i :: 0 <= i < |NatToString(n)| ==> IsDigit(NatToString(n)[i])
    ensures ParseDigits(NatToString(n)) == n
    decreases n
  {
    NatToStringDigits(n);
    if n >= 10 {
      NatToStringRoundTrip(n / 10);
      var s := NatToString(n);
      assert s[..|s| - 1] == NatToString(n / 10);
    }
  }

  /** `Integer.toString` of any int is non-empty and made of digits and at most a leading '-'. */
  lemma IntToStringShape(n: int)
    ensures |IntToString(n)| > 0
    ensures forall i :: 0 <= i < |IntToString(n)| ==> IsDigit(IntToString(n)[i]) || (i == 0 && n < 0)
    ensures IntToString(n)[0] == '-' <==> n < 0
  {
    NatToStringDigits(if n < 0 then -n else n);
  }

  /** `sub` occurs in `s` starting at index `i`. */
  predicate MatchesAt(s: string, sub: string, i: nat) {
    i + |sub| <= |s| && s[i..i + |sub|] == sub
  }

  /** Some window of `s` equals `sub`. */
  ghost predicate Occurs(s: string, sub: string) {
    exists i: nat :: MatchesAt(s, sub, i)
  }

  /** `s.contains(sub)`. */
  function Contains(s: string, sub: string): (b: bool)
    ensures b <==> Occurs(s, sub)
  {
    ContainsFrom(s, sub, 0)
  }

  /** Every character of an occurring `sub` is a character of `s`. */
  lemma OccursHasChars(s: string, sub: string)
    requires Occurs(s, sub)
    ensures forall x :: x in sub ==> x in s
  {
    var i: nat :| MatchesAt(s, sub, i);
    forall x | x in sub ensures x in s {
      var j :| 0 <= j < |sub| && sub[j] == x;
      assert s[i..i + |sub|][j] == s[i + j];
    }
  }

  /** A string lacking one of `sub`'s characters cannot contain `sub`. */
  lemma AbsentChar(s: string, sub: string, c: char)
    requires c in sub && c !in s
    ensures !Contains(s, sub)
  {
    if Contains(s, sub) {
      OccursHasChars(s, sub);
      assert false;
    }
  }

  /** `sub` placed between two strings is contained in the result. */
  lemma FoundIn(before: string, sub: string, after: string)
    ensures Contains(before + sub + after, sub)
  {
    var s := before + sub + after;
    assert s[|before|..|before| + |sub|] == sub;
    assert MatchesAt(s, sub, |before|);
  }

  function ContainsFrom(s: string, sub: string, from: nat): (b: bool)
    ensures b <==> exists i: nat :: from <= i && MatchesAt(s, sub, i)
    decreases |s| - from
  {
    if from + |sub| > |s| then false
    else if MatchesAt(s, sub, from) then true
    else
      var b := ContainsFrom(s, sub, from + 1);
      assert forall i: nat :: from <= i && MatchesAt(s, sub, i) ==> i == from || from + 1 <= i;
      b
  }

  /** Joins with a one-character separator: `String.join(sep, parts)`. */
  function Join(parts: seq<string>, sep: char): (s: string)
  {
    if parts == [] then ""
    else if |parts| == 1 then parts[0]
    else parts[0] + [sep] + Join(parts[1..], sep)
  }

  /** A join ends with the last character of its last part. */
  lemma {:induction false} JoinLast(parts: seq<string>, sep: char)
    requires parts != [] && parts[|parts| - 1] != ""
    ensures var s := Join(parts, sep); |s| > 0 && s[|s| - 1] == parts[|parts| - 1][|parts[|parts| - 1]| - 1]
    decreases |parts|
  {
    if |parts| > 1 {
      JoinLast(parts[1..], sep);
    }
  }

  /** Splits at every occurrence of `sep`, keeping empty pieces. */
  function SplitAll(s: string, sep: char): (parts: seq<string>)
    ensures |parts| > 0
    decreases |s|
  {
    if s == [] then [""]
    else if s[0] == sep then [""] + SplitAll(s[1..], sep)
    else
      var rest := SplitAll(s[1..], sep);
      [[s[0]] + rest[0]] + rest[1..]
  }

  /** Splitting undoes joining when no part contains the separator. */
  lemma {:induction false} SplitJoin(parts: seq<string>, sep: char)
    requires |parts| > 0
    requires forall k :: 0 <= k < |parts| ==> sep !in parts[k]
    ensures SplitAll(Join(parts, sep), sep) == parts
    decreases |parts|
  {
    if |parts| == 1 {
      SplitNoSep(parts[0], sep);
    } else {
      SplitJoin(parts[1..], sep);
      SplitPrefix(parts[0], Join(parts[1..], sep), sep);
      assert Join(parts, sep) == parts[0] + [sep] + Join(parts[1..], sep);
    }
  }

  lemma {:induction false} SplitNoSep(p: string, sep: char)
    requires sep !in p
    ensures SplitAll(p, sep) == [p]
    decreases |p|
  {
    if p != [] {
      SplitNoSep(p[1..], sep);
      assert [p[0]] + p[1..] == p;
    }
  }

  lemma {:induction false} SplitPrefix(p: string, rest: string, sep: char)
    requires sep !in p
    ensures SplitAll(p + [sep] + rest, sep) == [p] + SplitAll(rest, sep)
    decreases |p|
  {
    if p == [] {
      assert p + [sep] + rest == [sep] + rest;
      assert ([sep] + rest)[1..] == rest;
    } else {
      var s := p + [sep] + rest;
      assert s[0] == p[0] && s[1..] == p[1..] + [sep] + rest;
      SplitPrefix(p[1..], rest, sep);
      assert [p[0]] + p[1..] == p;
    }
  }

  /**
   * `s.split(" ")` as Java computes it for a one-character pattern: split at every
   * separator, then drop trailing empty strings; a string without the separator
   * (including "") comes back as the one-element array `[s]`.
   */
  function JavaSplit(s: string, sep: char): (parts: seq<string>)
  {
    if sep !in s then [s] else DropTrailingEmpty(SplitAll(s, sep))
  }

  function DropTrailingEmpty(parts: seq<string>): (r: seq<string>)
    ensures |r| <= |parts| && r == parts[..|r|]
    ensures r == [] || r[|r| - 1] != ""
    ensures forall k :: |r| <= k < |parts| ==> parts[k] == ""
  {
    if parts == [] then []
    else if parts[|parts| - 1] == "" then DropTrailingEmpty(parts[..|parts| - 1])
    else parts
  }
}
