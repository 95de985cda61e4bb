/**
 * The pieces of Java's String and Integer that the activity relies on when it
 * builds and reads wire lines: String.replace(char, char), String.trim(),
 * Integer.toString and Integer.parseInt (radix 10), plus the split/join on a
 * separator character that a peer uses to take a line apart.
 */
module Text {

  datatype Option<T> = None | Some(value: T)

  // ---------------------------------------------------------------------------
  // Characters

  predicate IsDigit(c: char) {
    '0' <= c <= '9'
  }

  predicate AllDigits(s: string) {
    forall i :: 0 <= i < |s| ==> IsDigit(s[i])
  }

  /** String.trim() strips every character whose code is at most U+0020. */
  predicate IsSpace(c: char) {
    c <= ' '
  }

  predicate Blank(s: string) {
    forall i :: 0 <= i < |s| ==> IsSpace(s[i])
  }

  function DigitChar(d: nat): (c: char)
    requires d < 10
    ensures IsDigit(c)
  {
    (d + '0' as int) as char
  }

  function DigitValue(c: char): (d: nat)
    requires IsDigit(c)
    ensures d < 10 && DigitChar(d) == c
  {
    c as int - '0' as int
  }

  // ---------------------------------------------------------------------------
  // String.replace(char, char)

  /** Every occurrence of `from` replaced by `to`, everything else kept. */
  function Replace(s: string, from: char, to: char): (r: string)
    ensures |r| == |s|
    ensures forall i :: 0 <= i < |s| ==> r[i] == (if s[i] == from then to else s[i])
    ensures from != to ==> from !in r
  {
    if s == [] then [] else [if s[0] == from then to else s[0]] + Replace(s[1..], from, to)
  }

  // ---------------------------------------------------------------------------
  // Integer.toString and Integer.parseInt

  const MinInt32: int := -0x8000_0000
  const MaxInt32: int := 0x7fff_ffff

  predicate InInt32(n: int) {
    MinInt32 <= n <= MaxInt32
  }

  /** Decimal digits of n, most significant first, with no leading zero. */
  function NatToString(n: nat): (s: string)
    ensures |s| >= 1 && AllDigits(s)
    ensures s[0] == '0' ==> n == 0
    decreases n
  {
    if n < 10 then [DigitChar(n)] else NatToString(n / 10) + [DigitChar(n % 10)]
  }

  /**
   * Integer.toString: a minus sign before the digits of a negative number, and
   * no leading zero except in "0" itself.
   */
  function IntToString(n: int): (s: string)
    ensures |s| >= 1
    ensures s[0] == '-' <==> n < 0
    ensures s[0] == '-' || IsDigit(s[0])
    ensures IsDigit(s[|s| - 1])
    ensures s[0] == '0' ==> s == "0"
    ensures s[0] == '-' ==> |s| >= 2 && s[1] != '0'
  {
    if n < 0 then
      var s := "-" + NatToString(-n);
      assert s[1..] == NatToString(-n);
      s
    else
      NatToString(n)
  }

  /** The value of a string of decimal digits (the empty string reads as 0). */
  function DigitsValue(s: string): nat
    requires AllDigits(s)
  {
    if s == [] then 0 else DigitsValue(s[..|s| - 1]) * 10 + DigitValue(s[|s| - 1])
  }

  /**
   * Integer.parseInt(s, 10): an optional sign, then at least one digit, and the
   * value must fit in 32 bits; anything else is a NumberFormatException (None).
   */
  function ParseInt(s: string): (r: Option<int>)
    ensures r.Some? ==> InInt32(r.value)
    ensures r.Some? ==> |s| >= 1 && IsDigit(s[|s| - 1])
    ensures r.Some? ==> (r.value < 0 ==> s[0] == '-')
    ensures r.Some? ==> AllDigits(if s[0] == '-' || s[0] == '+' then s[1..] else s)
  {
    if |s| == 0 then None
    else
      var digits := if s[0] == '-' || s[0] == '+' then s[1..] else s;
      if |digits| == 0 || !AllDigits(digits) then None
      else
        var v: int := if s[0] == '-' then 0 - DigitsValue(digits) as int else DigitsValue(digits);
        if InInt32(v) then Some(v) else None
  }

  lemma {:induction false} DigitsOfNatToString(n: nat)
    ensures DigitsValue(NatToString(n)) == n
    decreases n
  {
    if n >= 10 {
      var s := NatToString(n);
      DigitsOfNatToString(n / 10);
      assert s[..|s| - 1] == NatToString(n / 10);
      assert s[|s| - 1] == DigitChar(n % 10);
    }
  }

  /** A run of k '0' characters. */
  function Zeros(k: nat): (z: string)
    ensures |z| == k && AllDigits(z)
  {
    if k == 0 then [] else Zeros(k - 1) + ['0']
  }

  /** Leading zeros do not change the value of a string of digits. */
  lemma {:induction false} DigitsValueLeadingZeros(k: nat, d: string)
    requires AllDigits(d)
    ensures AllDigits(Zeros(k) + d) && DigitsValue(Zeros(k) + d) == DigitsValue(d)
    decreases |d|, k
  {
    var z := Zeros(k);
    if d == [] {
      assert z + d == z;
      if k > 0 {
        assert z[..k - 1] == Zeros(k - 1) + d;
        DigitsValueLeadingZeros(k - 1, d);
      }
    } else {
      var zd := z + d;
      assert zd[..|zd| - 1] == z + d[..|d| - 1];
      DigitsValueLeadingZeros(k, d[..|d| - 1]);
    }
  }

  /** A sign, or none, before a non-empty run of digits is read as their value, negated after '-'. */
  lemma ParseIntSigned(sign: string, d: string)
    requires sign == "" || sign == "+" || sign == "-"
    requires d != [] && AllDigits(d)
    ensures var v := if sign == "-" then 0 - DigitsValue(d) else DigitsValue(d);
            ParseInt(sign + d) == if InInt32(v) then Some(v) else None
  {
    var s := sign + d;
    if sign == "" {
      assert s == d && IsDigit(s[0]);
    } else {
      assert s[0] == sign[0] && s[1..] == d;
    }
  }

  /**
   * Integer.parseInt reads an optional sign, any run of leading zeros and the
   * decimal digits of n as n, negated after '-', whenever that fits in 32 bits.
   */
  lemma ParseIntDecimal(sign: string, k: nat, n: nat)
    requires sign == "" || sign == "+" || sign == "-"
    requires InInt32(if sign == "-" then 0 - n else n)
    ensures ParseInt(sign + (Zeros(k) + NatToString(n))) == Some(if sign == "-" then 0 - n else n)
  {
    DigitsValueLeadingZeros(k, NatToString(n));
    DigitsOfNatToString(n);
    ParseIntSigned(sign, Zeros(k) + NatToString(n));
  }

  /** Integer.parseInt reads back every 32-bit value Integer.toString writes. */
  lemma ParseIntOfIntToString(n: int)
    requires InInt32(n)
    ensures ParseInt(IntToString(n)) == Some(n)
  {
    var s := IntToString(n);
    if n < 0 {
      assert s[1..] == NatToString(-n);
      DigitsOfNatToString(-n);
    } else {
      DigitsOfNatToString(n);
    }
  }

  // ---------------------------------------------------------------------------
  // String.trim()

  /** How many blank characters s starts with. */
  function LeadingBlanks(s: string): (n: nat)
    ensures n <= |s| && Blank(s[..n])
    ensures n < |s| ==> !IsSpace(s[n])
  {
    if |s| > 0 && IsSpace(s[0]) then
      var m := LeadingBlanks(s[1..]);
      assert s[..m + 1] == [s[0]] + s[1..][..m];
      assert m < |s| - 1 ==> s[m + 1] == s[1..][m];
      m + 1
    else
      0
  }

  /** How many blank characters s ends with. */
  function TrailingBlanks(s: string): (n: nat)
    ensures n <= |s| && Blank(s[|s| - n..])
    ensures n < |s| ==> !IsSpace(s[|s| - n - 1])
  {
    if |s| > 0 && IsSpace(s[|s| - 1]) then
      var front := s[..|s| - 1];
      var m := TrailingBlanks(front);
      assert s[|s| - 1 - m..] == front[|front| - m..] + [s[|s| - 1]];
      assert m < |front| ==> s[|s| - m - 2] == front[|front| - m - 1];
      m + 1
    else
      0
  }

  /**
   * s without its leading and trailing blank characters: the slice that starts
   * after the leading blanks and is followed only by blanks.
   */
  function Trim(s: string): (r: string)
    ensures r == [] <==> Blank(s)
    ensures r != [] ==> !IsSpace(r[0]) && !IsSpace(r[|r| - 1])
    ensures LeadingBlanks(s) + |r| <= |s| && r == s[LeadingBlanks(s)..LeadingBlanks(s) + |r|]
    ensures Blank(s[LeadingBlanks(s) + |r|..])
  {
    var start := LeadingBlanks(s);
    var trail := TrailingBlanks(s[start..]);
    assert s[start..][|s| - start - trail..] == s[|s| - trail..];
    TrimSlice(s, start, trail);
    s[start..|s| - trail]
  }

  /**
   * Cutting `start` leading and `trail` trailing blanks, each run as long as it
   * can be, leaves the slice between them, which is empty only for blank text.
   */
  lemma TrimSlice(s: string, start: nat, trail: nat)
    requires start <= |s| && Blank(s[..start]) && (start < |s| ==> !IsSpace(s[start]))
    requires trail <= |s| - start && Blank(s[|s| - trail..])
    requires trail < |s| - start ==> !IsSpace(s[|s| - trail - 1])
    ensures var r := s[start..|s| - trail];
            && (r == [] <==> Blank(s))
            && (r != [] ==> !IsSpace(r[0]) && !IsSpace(r[|r| - 1]))
            && r == s[start..start + |r|]
            && Blank(s[start + |r|..])
  {
    if start == |s| {
      assert s[..start] == s;
    } else {
      assert s[|s| - trail..] == [] || s[|s| - trail..][0] == s[|s| - trail];
      assert !Blank(s) by {
        assert !IsSpace(s[start]);
      }
    }
  }

  /** A string that already starts and ends with a non-blank is left as it is. */
  lemma TrimKeepsTrimmed(s: string)
    requires s == [] || (!IsSpace(s[0]) && !IsSpace(s[|s| - 1]))
    ensures Trim(s) == s
  {
  }

  lemma TrimIdempotent(s: string)
    ensures Trim(Trim(s)) == Trim(s)
  {
  }

  // ---------------------------------------------------------------------------
  // Splitting a line on a separator, and joining tokens with it

  /** The tokens between occurrences of sep (an empty token between adjacent ones). */
  function Split(s: string, sep: char): (parts: seq<string>)
    ensures |parts| >= 1
    ensures forall i :: 0 <= i < |parts| ==> sep !in parts[i]
  {
    if s == [] then [""]
    else
      var rest := Split(s[1..], sep);
      if s[0] == sep then [""] + rest else [[s[0]] + rest[0]] + rest[1..]
  }

  function Join(parts: seq<string>, sep: char): string
    requires |parts| >= 1
  {
    if |parts| == 1 then parts[0] else parts[0] + [sep] + Join(parts[1..], sep)
  }

  lemma {:induction false} SplitWithoutSep(s: string, sep: char)
    requires sep !in s
    ensures Split(s, sep) == [s]
  {
    if s != [] {
      SplitWithoutSep(s[1..], sep);
      assert s[0] != sep;
      assert [s[0]] + s[1..] == s;
    }
  }

  lemma {:induction false} SplitAtSep(a: string, sep: char, b: string)
    requires sep !in a
    ensures Split(a + [sep] + b, sep) == [a] + Split(b, sep)
  {
    if a != [] {
      SplitAtSep(a[1..], sep, b);
      assert (a + [sep] + b)[1..] == a[1..] + [sep] + b;
      assert [a[0]] + a[1..] == a;
    }
  }

  /** Joining tokens that do not contain the separator and splitting again gives them back. */
  lemma {:induction false} SplitJoin(parts: seq<string>, sep: char)
    requires |parts| >= 1
    requires forall i :: 0 <= i < |parts| ==> sep !in parts[i]
    ensures Split(Join(parts, sep), sep) == parts
  {
    if |parts| == 1 {
      SplitWithoutSep(parts[0], sep);
    } else {
      SplitJoin(parts[1..], sep);
      SplitAtSep(parts[0], sep, Join(parts[1..], sep));
    }
  }

  lemma {:induction false} JoinConsHead(c: char, parts: seq<string>, sep: char)
    requires |parts| >= 1
    ensures Join([[c] + parts[0]] + parts[1..], sep) == [c] + Join(parts, sep)
  {
  }

  /** Splitting a line and joining the tokens again gives back the line. */
  lemma {:induction false} JoinSplit(s: string, sep: char)
    ensures Join(Split(s, sep), sep) == s
  {
    if s != [] {
      var rest := Split(s[1..], sep);
      JoinSplit(s[1..], sep);
      if s[0] == sep {
        assert ([""] + rest)[1..] == rest;
      } else {
        JoinConsHead(s[0], rest, sep);
      }
    }
  }
}
