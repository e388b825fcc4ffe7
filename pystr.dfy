/** The few Python 2 string operations the assembly script relies on:
    str.strip(), file.readlines(), str(n) for a natural number and the
    '{:04d}' format.  Strings are byte strings, as in Python 2. */
module PyStr {
  import opened Seqs

  /** The characters str.strip() removes when it is called without an argument. */
  predicate IsSpace(c: char) {
    c == ' ' || c == '\t' || c == '\n' || c == '\r' || c == '\U{B}' || c == '\U{C}'
  }

  /** str.lstrip(): the longest suffix that does not start with whitespace. */
  function LStrip(s: string): (r: string)
    ensures |r| <= |s| && r == s[|s| - |r|..]
    ensures forall i :: 0 <= i < |s| - |r| ==> IsSpace(s[i])
    ensures r == "" || !IsSpace(r[0])
  {
    if |s| > 0 && IsSpace(s[0]) then LStrip(s[1..]) else s
  }

  /** str.rstrip(): the longest prefix that does not end with whitespace. */
  function RStrip(s: string): (r: string)
    ensures |r| <= |s| && r == s[..|r|]
    ensures forall i :: |r| <= i < |s| ==> IsSpace(s[i])
    ensures r == "" || !IsSpace(r[|r| - 1])
  {
    if |s| > 0 && IsSpace(s[|s| - 1]) then RStrip(s[..|s| - 1]) else s
  }

  /** r is the slice of s that starts at i, and only whitespace surrounds it. */
  predicate StripWindow(s: string, r: string, i: nat) {
    && i + |r| <= |s|
    && r == s[i..i + |r|]
    && (forall k :: 0 <= k < i ==> IsSpace(s[k]))
    && (forall k :: i + |r| <= k < |s| ==> IsSpace(s[k]))
  }

  /** Where the whitespace around a slice of s lies, once the front and then
      the back of s have been cut away. */
  lemma StripWindowOf(s: string, t: string, r: string)
    requires |t| <= |s| && t == s[|s| - |t|..]
    requires forall k :: 0 <= k < |s| - |t| ==> IsSpace(s[k])
    requires |r| <= |t| && r == t[..|r|]
    requires forall k :: |r| <= k < |t| ==> IsSpace(t[k])
    ensures StripWindow(s, r, |s| - |t|)
  {
    var i := |s| - |t|;
    assert r == s[i..i + |r|];
    forall k | i + |r| <= k < |s|
      ensures IsSpace(s[k])
    {
      assert s[k] == t[k - i];
    }
  }

  /** str.strip(): the slice of s left once the whitespace at both ends is removed. */
  function Strip(s: string): (r: string)
    ensures |r| <= |s|
    ensures exists i :: StripWindow(s, r, i)
    ensures r == "" || (!IsSpace(r[0]) && !IsSpace(r[|r| - 1]))
  {
    var t := LStrip(s);
    var r := RStrip(t);
    StripWindowOf(s, t, r);
    assert r == "" || r[0] == t[0];
    r
  }

  /** The text lines concatenated back together. */
  function Concat(lines: seq<string>): string {
    if lines == [] then "" else lines[0] + Concat(lines[1..])
  }

  /** The number of newline characters in s. */
  function Newlines(s: string): nat {
    if s == "" then 0 else (if s[0] == '\n' then 1 else 0) + Newlines(s[1..])
  }

  /** The length of the first line of a non-empty text: up to and including
      its first newline, or the whole text when it has none. */
  function LineLength(s: string): (k: nat)
    requires s != ""
    ensures 1 <= k <= |s|
    ensures '\n' !in s[..k - 1]
    ensures k < |s| ==> s[k - 1] == '\n'
  {
    if s[0] == '\n' || |s| == 1 then 1 else 1 + LineLength(s[1..])
  }

  /** A line as readlines() yields it: not empty, and no newline before its last character. */
  predicate IsLine(l: string) {
    l != "" && '\n' !in l[..|l| - 1]
  }

  predicate EndsInNewline(l: string) {
    l != "" && l[|l| - 1] == '\n'
  }

  /** file.readlines(): the text cut after every newline.  Every line but
      the last ends with its newline, no line is empty and no line holds a
      newline before its end; together the lines give back the text. */
  function ReadLines(s: string): (lines: seq<string>)
    ensures Concat(lines) == s
    ensures forall i :: 0 <= i < |lines| ==> IsLine(lines[i])
    ensures forall i :: 0 <= i < |lines| - 1 ==> EndsInNewline(lines[i])
    decreases |s|
  {
    if s == "" then []
    else
      var k := LineLength(s);
      var line := s[..k];
      var rest := ReadLines(s[k..]);
      assert line[..k - 1] == s[..k - 1];
      assert IsLine(line);
      assert line + s[k..] == s;
      [line] + rest
  }

  lemma {:induction false} NewlinesAppend(a: string, b: string)
    ensures Newlines(a + b) == Newlines(a) + Newlines(b)
  {
    if a == "" {
      assert a + b == b;
    } else {
      assert (a + b)[0] == a[0];
      assert (a + b)[1..] == a[1..] + b;
      NewlinesAppend(a[1..], b);
    }
  }

  lemma {:induction false} NoNewlines(s: string)
    requires '\n' !in s
    ensures Newlines(s) == 0
  {
    if s != "" {
      NoNewlines(s[1..]);
    }
  }

  /** readlines() yields one line per newline, plus one for an unterminated
      last line: blank lines are lines like any other. */
  lemma {:induction false} LineCount(s: string)
    ensures |ReadLines(s)| == Newlines(s) + (if s != "" && s[|s| - 1] != '\n' then 1 else 0)
    decreases |s|
  {
    if s != "" {
      var k := LineLength(s);
      LineCount(s[k..]);
      SplitAt(s, k - 1);
      NewlinesAppend(s[..k - 1] + [s[k - 1]], s[k..]);
      NewlinesAppend(s[..k - 1], [s[k - 1]]);
      NoNewlines(s[..k - 1]);
      assert Newlines([s[k - 1]]) == if s[k - 1] == '\n' then 1 else 0;
      if k == |s| {
        assert s[k..] == "";
      } else {
        assert s[|s| - 1] == s[k..][|s[k..]| - 1];
      }
    }
  }

  predicate IsDigit(c: char) {
    '0' <= c <= '9'
  }

  predicate AllDigits(s: string) {
    forall i :: 0 <= i < |s| ==> IsDigit(s[i])
  }

  function DigitChar(d: nat): (c: char)
    requires d < 10
    ensures IsDigit(c)
  {
    (48 + d) as char
  }

  /** The number a string of decimal digits denotes; leading zeros count for nothing. */
  function DecimalValue(s: string): nat
    requires AllDigits(s)
  {
    if s == "" then 0 else 10 * DecimalValue(s[..|s| - 1]) + (s[|s| - 1] as int - 48)
  }

  /** str(n): the decimal digits of n, without leading zeros. */
  function NatToString(n: nat): (r: string)
    ensures |r| >= 1 && AllDigits(r)
    ensures r[0] == '0' ==> r == "0"
    ensures DecimalValue(r) == n
  {
    if n < 10 then [DigitChar(n)]
    else
      var r := NatToString(n / 10) + [DigitChar(n % 10)];
      assert r[..|r| - 1] == NatToString(n / 10);
      r
  }

  function Pow10(k: nat): nat {
    if k == 0 then 1 else 10 * Pow10(k - 1)
  }

  lemma {:induction false} NatToStringLength(n: nat, k: nat)
    requires 1 <= k && n < Pow10(k)
    ensures |NatToString(n)| <= k
  {
    if n >= 10 {
      assert k >= 2;
      NatToStringLength(n / 10, k - 1);
    }
  }

  lemma {:induction false} DecimalValueBound(s: string)
    requires AllDigits(s)
    ensures DecimalValue(s) < Pow10(|s|)
  {
    if s != "" {
      DecimalValueBound(s[..|s| - 1]);
    }
  }

  lemma {:induction false} Pow10Monotone(j: nat, k: nat)
    requires j <= k
    ensures Pow10(j) <= Pow10(k)
    decreases k
  {
    if j < k {
      Pow10Monotone(j, k - 1);
    }
  }

  function Zeros(k: nat): (z: string)
    ensures |z| == k && AllDigits(z)
  {
    seq(k, _ => '0')
  }

  lemma {:induction false} ZerosThenDigits(k: nat, s: string)
    requires AllDigits(s)
    ensures AllDigits(Zeros(k) + s) && DecimalValue(Zeros(k) + s) == DecimalValue(s)
    decreases |s|
  {
    assert AllDigits(Zeros(k) + s) by {
      forall i | 0 <= i < |Zeros(k) + s| ensures IsDigit((Zeros(k) + s)[i]) {
        if i >= k { assert (Zeros(k) + s)[i] == s[i - k]; }
      }
    }
    if s == "" {
      assert Zeros(k) + s == Zeros(k);
      AllZeros(k);
    } else {
      assert (Zeros(k) + s)[..|Zeros(k) + s| - 1] == Zeros(k) + s[..|s| - 1];
      ZerosThenDigits(k, s[..|s| - 1]);
    }
  }

  lemma {:induction false} AllZeros(k: nat)
    ensures DecimalValue(Zeros(k)) == 0
  {
    if k > 0 {
      assert Zeros(k)[..k - 1] == Zeros(k - 1);
      AllZeros(k - 1);
    }
  }

  /** '{:04d}'.format(n): the decimal digits of n, padded on the left with
      zeros to a width of four.  The padding never goes beyond four digits,
      the string reads back as n, and below 10000 it is exactly four long. */
  function FourDigit(n: nat): (r: string)
    ensures |r| >= 4 && AllDigits(r) && DecimalValue(r) == n
    ensures |r| > 4 ==> r[0] != '0'
    ensures n < 10000 ==> |r| == 4
  {
    var d := NatToString(n);
    if n < 10000 then
      NatToStringLength(n, 4);
      ZerosThenDigits(4 - |d|, d);
      Zeros(4 - |d|) + d
    else
      DecimalValueBound(d);
      (if |d| <= 4 then Pow10Monotone(|d|, 4); d else d)
  }

  /** The first index: '{:04d}'.format(0) is "0000". */
  lemma FourDigitZero()
    ensures FourDigit(0) == "0000"
  {
    assert NatToString(0) == "0";
    assert Zeros(3) == "000";
  }

}
