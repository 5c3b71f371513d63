/** The helpers of utils/index.ts: the required-parameter check and the
  * timestamp formatter. */
module Utils {
  import opened Wrappers
  import opened Text

  /* ---------- getMissingParam ---------- */

  /** `getMissingParam(requireParams, paramsFromClient)`: the first required
    * name, in order, that is not among the keys of the client's object;
    * `None` is the `undefined` returned when every name is present. */
  function FirstMissing(required: seq<string>, keys: set<string>): (r: Option<string>)
    ensures r.None? <==> forall i :: 0 <= i < |required| ==> required[i] in keys
    ensures r.Some? ==> exists i :: 0 <= i < |required| && required[i] == r.value
                          && r.value !in keys
                          && forall j :: 0 <= j < i ==> required[j] in keys
  {
    if |required| == 0 then None
    else if required[0] !in keys then Some(required[0])
    else
      var r := FirstMissing(required[1..], keys);
      if r.Some? then
        var i :| 0 <= i < |required[1..]| && required[1..][i] == r.value
                 && r.value !in keys && forall j :: 0 <= j < i ==> required[1..][j] in keys;
        assert required[i + 1] == r.value;
        assert forall j :: 0 <= j < i + 1 ==> required[j] in keys by {
          forall j | 0 <= j < i + 1 ensures required[j] in keys {
            if j > 0 { assert required[j] == required[1..][j - 1]; }
          }
        }
        r
      else
        assert forall i :: 0 <= i < |required| ==> required[i] in keys by {
          forall i | 0 <= i < |required| ensures required[i] in keys {
            if i > 0 { assert required[i] == required[1..][i - 1]; }
          }
        }
        r
  }

  /** Keys the client sends beyond the required ones never change the answer. */
  lemma {:induction false} ExtraKeysIrrelevant(required: seq<string>, keys: set<string>, extra: set<string>)
    requires forall i :: 0 <= i < |required| ==> required[i] !in extra
    ensures FirstMissing(required, keys + extra) == FirstMissing(required, keys)
  {
    if |required| > 0 {
      assert forall i :: 0 <= i < |required[1..]| ==> required[1..][i] == required[i + 1];
      ExtraKeysIrrelevant(required[1..], keys, extra);
    }
  }

  /* ---------- getPresentTime ---------- */

  /** The fields a JavaScript `Date` reports in local time; `month0` is
    * `getMonth()`, counted from 0. */
  datatype DateParts = DateParts(year: int, month0: nat, day: nat, hour: nat, minute: nat, second: nat)

  /** A field rendered with `toString().padStart(2, '0')`. */
  function Two(n: nat): (r: string)
    ensures n < 100 ==> |r| == 2 && (forall i :: 0 <= i < 2 ==> IsDigit(r[i])) && ParseDigits(r) == n
  {
    var s := NatToString(n);
    var r := PadStart2(s);
    if n < 100 then
      if n < 10 then
        assert s == [DigitChar(n)];
        assert r[..1] == "0" && r[1..] == s;
        assert ParseDigits(r[..1]) == 0;
        r
      else
        assert |s| == 2 by {
          var q := NatToString(n / 10);
          assert n / 10 < 10;
          assert s == q + [DigitChar(n % 10)];
        }
        r
    else r
  }

  /** `getPresentTime()`: `YYYY-MM-DD HH:mm:ss` from the parts of the current
    * date, the month shifted to count from 1. */
  function PresentTime(d: DateParts): (r: string)
    ensures |r| > |IntToString(d.year)| && r[..|IntToString(d.year)|] == IntToString(d.year)
    ensures r[|IntToString(d.year)|] == '-'
  {
    Stamp(IntToString(d.year), Two(d.month0 + 1), Two(d.day), Two(d.hour), Two(d.minute), Two(d.second))
  }

  /** The template literal of `getPresentTime` over already rendered fields. */
  function Stamp(year: string, mo: string, da: string, ho: string, mi: string, se: string): string {
    year + "-" + mo + "-" + da + " " + ho + ":" + mi + ":" + se
  }

  /** The layout of the timestamp: the year, then five two-digit fields behind
    * fixed separators; each field reads back as the date part it renders, the
    * month as `month0 + 1`. */
  lemma PresentTimeFields(d: DateParts)
    requires d.month0 < 12 && 1 <= d.day <= 31 && d.hour < 24 && d.minute < 60 && d.second < 60
    ensures var r := PresentTime(d);
      var y := |IntToString(d.year)|;
      && |r| == y + 15
      && r[..y] == IntToString(d.year)
      && r[y] == '-' && r[y + 3] == '-' && r[y + 6] == ' ' && r[y + 9] == ':' && r[y + 12] == ':'
      && r[y + 1..y + 3] == Two(d.month0 + 1) && ParseDigits(Two(d.month0 + 1)) == d.month0 + 1
      && r[y + 4..y + 6] == Two(d.day) && ParseDigits(Two(d.day)) == d.day
      && r[y + 7..y + 9] == Two(d.hour) && ParseDigits(Two(d.hour)) == d.hour
      && r[y + 10..y + 12] == Two(d.minute) && ParseDigits(Two(d.minute)) == d.minute
      && r[y + 13..] == Two(d.second) && ParseDigits(Two(d.second)) == d.second
  {
    var mo, da, ho, mi, se := Two(d.month0 + 1), Two(d.day), Two(d.hour), Two(d.minute), Two(d.second);
    assert |mo| == 2 && |da| == 2 && |ho| == 2 && |mi| == 2 && |se| == 2;
    StampLayout(IntToString(d.year), mo, da, ho, mi, se);
  }

  /** Where the separators and the fields of a stamp sit when every field
    * after the year has two characters. */
  lemma StampLayout(year: string, mo: string, da: string, ho: string, mi: string, se: string)
    requires |mo| == 2 && |da| == 2 && |ho| == 2 && |mi| == 2 && |se| == 2
    ensures var r := Stamp(year, mo, da, ho, mi, se);
      var y := |year|;
      && |r| == y + 15
      && r[..y] == year
      && r[y] == '-' && r[y + 3] == '-' && r[y + 6] == ' ' && r[y + 9] == ':' && r[y + 12] == ':'
      && r[y + 1..y + 3] == mo && r[y + 4..y + 6] == da && r[y + 7..y + 9] == ho
      && r[y + 10..y + 12] == mi && r[y + 13..] == se
  {
    var y := |year|;
    var r1 := year + "-" + mo;
    var r2 := r1 + "-" + da;
    var r3 := r2 + " " + ho;
    var r4 := r3 + ":" + mi;
    var r := r4 + ":" + se;
    FieldAfter(year, '-', mo);
    FieldAfter(r1, '-', da);
    FieldAfter(r2, ' ', ho);
    FieldAfter(r3, ':', mi);
    FieldAfter(r4, ':', se);
    assert r[..y] == year by { KeepsPrefix(r1, r, 0, y); }
    assert r[y + 1..y + 3] == mo by { KeepsPrefix(r1, r, y + 1, y + 3); }
    assert r[y + 4..y + 6] == da by { KeepsPrefix(r2, r, y + 4, y + 6); }
    assert r[y + 7..y + 9] == ho by { KeepsPrefix(r3, r, y + 7, y + 9); }
    assert r[y + 10..y + 12] == mi by { KeepsPrefix(r4, r, y + 10, y + 12); }
  }

  /** A separator and a two-character field appended to `p`. */
  lemma FieldAfter(p: string, sep: char, field: string)
    requires |field| == 2
    ensures var s := p + [sep] + field;
      |s| == |p| + 3 && s[..|p|] == p && s[|p|] == sep && s[|p| + 1..] == field
  {
  }

  /** A string that extends `p` agrees with it on every slice inside `p`. */
  lemma KeepsPrefix(p: string, s: string, i: nat, j: nat)
    requires i <= j <= |p| <= |s| && s[..|p|] == p
    ensures s[i..j] == p[i..j]
  {
    forall m | 0 <= m < j - i ensures s[i..j][m] == p[i..j][m] {
      assert s[i + m] == s[..|p|][i + m];
    }
  }
}
