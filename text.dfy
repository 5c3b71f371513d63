/** String helpers the handlers get from JavaScript: `substring(0, length - 1)`,
  * number-to-string conversion, `padStart(2, '0')` and global `replace`. */
module Text {

  predicate IsDigit(c: char) {
    '0' <= c <= '9'
  }

  /** `s.substring(0, s.length - 1)`: the last character dropped; on the empty
    * string the end index -1 is clamped to 0, so the result is empty too. */
  function DropLast(s: string): (r: string)
    ensures |s| == 0 ==> r == ""
    ensures |s| > 0 ==> r + [s[|s| - 1]] == s
  {
    if |s| == 0 then "" else s[..|s| - 1]
  }

  function DigitChar(d: nat): (c: char)
    requires d < 10
    ensures IsDigit(c) && DigitValue(c) == d
  {
    ['0', '1', '2', '3', '4', '5', '6', '7', '8', '9'][d]
  }

  function DigitValue(c: char): nat
    requires IsDigit(c)
  {
    c as nat - '0' as nat
  }

  /** The value of a string of decimal digits (the partner of `NatToString`). */
  function ParseDigits(s: string): nat
    requires forall i :: 0 <= i < |s| ==> IsDigit(s[i])
  {
    if |s| == 0 then 0 else 10 * ParseDigits(s[..|s| - 1]) + DigitValue(s[|s| - 1])
  }

  /** `n.toString()` for a non-negative integer: decimal, no leading zeros. */
  function NatToString(n: nat): (r: string)
    ensures |r| >= 1
    ensures forall i :: 0 <= i < |r| ==> IsDigit(r[i])
    ensures ParseDigits(r) == n
    ensures |r| > 1 ==> r[0] != '0'
  {
    if n < 10 then [DigitChar(n)]
    else
      var p := NatToString(n / 10);
      var r := p + [DigitChar(n % 10)];
      assert r[..|r| - 1] == p;
      r
  }

  /** `n.toString()` for any integer. */
  function IntToString(n: int): (r: string)
    ensures |r| >= 1
    ensures n >= 0 ==> r == NatToString(n)
    ensures n < 0 ==> r[0] == '-' && r[1..] == NatToString(-n)
  {
    if n >= 0 then NatToString(n) else "-" + NatToString(-n)
  }

  /** `s.padStart(2, '0')`. */
  function PadStart2(s: string): (r: string)
    ensures |s| >= 2 ==> r == s
    ensures |s| < 2 ==> |r| == 2 && r[2 - |s|..] == s && forall i :: 0 <= i < 2 - |s| ==> r[i] == '0'
  {
    if |s| >= 2 then s else if |s| == 1 then "0" + s else "00"
  }

  /** `s.replace(/c/g, '')`: every occurrence of `c` removed, everything else kept in order. */
  function RemoveAll(s: string, c: char): (r: string)
    ensures c !in r
  {
    if |s| == 0 then ""
    else
      var p := RemoveAll(s[..|s| - 1], c);
      var last := s[|s| - 1];
      if last == c then p else p + [last]
  }

  /** The removal keeps every other character as often as `s` has it, and
    * shortens `s` by the number of occurrences of `c`. */
  lemma {:induction false} RemoveAllCounts(s: string, c: char)
    ensures forall x :: x != c ==> multiset(RemoveAll(s, c))[x] == multiset(s)[x]
    ensures |RemoveAll(s, c)| == |s| - multiset(s)[c]
  {
    if |s| > 0 {
      var front, last := s[..|s| - 1], s[|s| - 1];
      RemoveAllCounts(front, c);
      assert s == front + [last];
    }
  }

  /** `s.replace(/\n/g, '').replace(/\t/g, '')`, as `updateApi` does to the body JSON. */
  function StripNewlinesAndTabs(s: string): (r: string)
    ensures '\n' !in r && '\t' !in r
  {
    var inner := RemoveAll(s, '\n');
    var r := RemoveAll(inner, '\t');
    RemoveAllCounts(inner, '\t');
    assert multiset(r)['\n'] == multiset(inner)['\n'] == 0;
    r
  }

  /** Stripping keeps every character other than a newline or a tab as often
    * as `s` has it. */
  lemma StripKeepsOthers(s: string)
    ensures forall x :: x != '\n' && x != '\t' ==> multiset(StripNewlinesAndTabs(s))[x] == multiset(s)[x]
  {
    RemoveAllCounts(s, '\n');
    RemoveAllCounts(RemoveAll(s, '\n'), '\t');
  }

  /** Removing a character twice is removing it once. */
  lemma {:induction false} RemoveAllIdempotent(s: string, c: char)
    ensures RemoveAll(RemoveAll(s, c), c) == RemoveAll(s, c)
  {
    RemoveAllOfFree(RemoveAll(s, c), c);
  }

  lemma {:induction false} RemoveAllOfFree(s: string, c: char)
    requires c !in s
    ensures RemoveAll(s, c) == s
  {
    if |s| > 0 {
      assert s[..|s| - 1] + [s[|s| - 1]] == s;
      RemoveAllOfFree(s[..|s| - 1], c);
    }
  }
}
