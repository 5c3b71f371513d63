/** The `version_type` column: the comma-joined list of one-character codes that
  * `updateApi` writes and that `rollback` splits and searches. */
module VersionType {
  import opened Text

  /** `pieces.join(',')`. */
  function JoinWithCommas(pieces: seq<string>): string {
    if |pieces| == 0 then ""
    else if |pieces| == 1 then pieces[0]
    else JoinWithCommas(pieces[..|pieces| - 1]) + "," + pieces[|pieces| - 1]
  }

  /** `s.split(',')`: the pieces between commas; the empty string gives `[""]`. */
  function Split(s: string): (r: seq<string>)
    ensures |r| >= 1
    ensures forall i :: 0 <= i < |r| ==> ',' !in r[i]
  {
    if |s| == 0 then [""]
    else
      var p := Split(s[..|s| - 1]);
      var c := s[|s| - 1];
      if c == ',' then p + [""]
      else p[..|p| - 1] + [p[|p| - 1] + [c]]
  }

  /** Joining the pieces of `split(',')` with commas gives back the text. */
  lemma {:induction false} SplitJoin(s: string)
    ensures JoinWithCommas(Split(s)) == s
  {
    if |s| > 0 {
      var pre := s[..|s| - 1];
      var c := s[|s| - 1];
      LastSplit(s);
      SplitJoin(pre);
      SplitJoinStep(pre, c);
    }
  }

  lemma LastSplit(s: string)
    requires |s| > 0
    ensures s[..|s| - 1] + [s[|s| - 1]] == s
  {
  }

  lemma SplitJoinStep(pre: string, c: char)
    requires JoinWithCommas(Split(pre)) == pre
    ensures JoinWithCommas(Split(pre + [c])) == pre + [c]
  {
    var p := Split(pre);
    assert (pre + [c])[..|pre|] == pre;
    if c == ',' {
      assert Split(pre + [c]) == p + [""];
      JoinEmptyLast(p);
    } else {
      assert Split(pre + [c]) == p[..|p| - 1] + [p[|p| - 1] + [c]];
      JoinExtendLast(p, c);
    }
  }

  lemma JoinEmptyLast(p: seq<string>)
    requires |p| >= 1
    ensures JoinWithCommas(p + [""]) == JoinWithCommas(p) + ","
  {
    assert (p + [""])[..|p|] == p;
  }

  lemma JoinExtendLast(p: seq<string>, c: char)
    requires |p| >= 1
    ensures JoinWithCommas(p[..|p| - 1] + [p[|p| - 1] + [c]]) == JoinWithCommas(p) + [c]
  {
    var r := p[..|p| - 1] + [p[|p| - 1] + [c]];
    if |p| > 1 {
      assert r[..|r| - 1] == p[..|p| - 1];
    }
  }

  /** The codes one by one, as `split` returns them. */
  function Singletons(codes: seq<char>): (r: seq<string>)
    ensures |r| == |codes|
    ensures forall i :: 0 <= i < |codes| ==> r[i] == [codes[i]]
  {
    seq(|codes|, i requires 0 <= i < |codes| => [codes[i]])
  }

  /** The text accumulated by `version_type += 'k,'` for each code in order. */
  function Tagged(codes: seq<char>): (r: string)
    ensures |r| == 2 * |codes|
  {
    if |codes| == 0 then ""
    else Tagged(codes[..|codes| - 1]) + [codes[|codes| - 1], ',']
  }

  /** The stored text: the accumulated one with its trailing comma removed. */
  function JoinCodes(codes: seq<char>): string {
    DropLast(Tagged(codes))
  }

  lemma {:induction false} TaggedContents(codes: seq<char>, k: char)
    requires k != ','
    ensures k in Tagged(codes) <==> k in codes
  {
    if |codes| > 0 {
      var pre := codes[..|codes| - 1];
      TaggedContents(pre, k);
      assert codes == pre + [codes[|codes| - 1]];
    }
  }

  /** `version_type LIKE "%k%"` for a one-character code `k` holds exactly when
    * `k` is one of the joined codes. */
  lemma LikeIsMembership(codes: seq<char>, k: char)
    requires k != ','
    ensures k in JoinCodes(codes) <==> k in codes
  {
    TaggedContents(codes, k);
    var t := Tagged(codes);
    if |t| > 0 {
      assert t == DropLast(t) + [t[|t| - 1]];
      assert t[|t| - 1] == ',';
    }
  }

  lemma SingletonsSnoc(codes: seq<char>)
    requires |codes| > 0
    ensures Singletons(codes[..|codes| - 1]) + [[codes[|codes| - 1]]] == Singletons(codes)
  {
    var a := Singletons(codes[..|codes| - 1]) + [[codes[|codes| - 1]]];
    assert |a| == |codes|;
    forall i | 0 <= i < |codes| ensures a[i] == Singletons(codes)[i] {
    }
  }

  lemma SplitComma(s: string)
    ensures Split(s + [',']) == Split(s) + [""]
  {
    assert (s + [','])[..|s|] == s;
  }

  lemma SplitOther(s: string, c: char)
    requires c != ','
    ensures var p := Split(s); Split(s + [c]) == p[..|p| - 1] + [p[|p| - 1] + [c]]
  {
    assert (s + [c])[..|s|] == s;
  }

  lemma {:induction false} SplitTagged(codes: seq<char>)
    requires ',' !in codes
    ensures Split(Tagged(codes)) == Singletons(codes) + [""]
  {
    if |codes| > 0 {
      var pre := codes[..|codes| - 1];
      var last := codes[|codes| - 1];
      var t := Tagged(pre) + [last];
      assert Split(t) == Singletons(pre) + [[last]] by {
        SplitTagged(pre);
        SplitOther(Tagged(pre), last);
        var p := Split(Tagged(pre));
        assert p[..|p| - 1] == Singletons(pre) && p[|p| - 1] + [last] == [last];
      }
      assert Split(Tagged(codes)) == Split(t) + [""] by {
        assert Tagged(codes) == t + [','];
        SplitComma(t);
      }
      assert Singletons(pre) + [[last]] == Singletons(codes) by {
        SingletonsSnoc(codes);
      }
    }
  }

  /** `split(',')` undoes the joining of a non-empty list of codes. */
  lemma SplitJoinCodes(codes: seq<char>)
    requires ',' !in codes && |codes| > 0
    ensures Split(JoinCodes(codes)) == Singletons(codes)
  {
    var pre := codes[..|codes| - 1];
    var last := codes[|codes| - 1];
    var t := Tagged(pre) + [last];
    assert Split(t) == Singletons(pre) + [[last]] by {
      SplitTagged(pre);
      SplitOther(Tagged(pre), last);
      var p := Split(Tagged(pre));
      assert p[..|p| - 1] == Singletons(pre) && p[|p| - 1] + [last] == [last];
    }
    assert JoinCodes(codes) == t by {
      assert Tagged(codes) == t + [','];
    }
    SingletonsSnoc(codes);
  }

  /** The one-character codes `split(',')` yields from stored codes are
    * exactly the codes stored. */
  lemma CodesListed(a: seq<char>)
    requires ',' !in a
    ensures var codes := Split(JoinCodes(a));
      && ("0" in codes <==> '0' in a) && ("1" in codes <==> '1' in a) && ("2" in codes <==> '2' in a)
      && ("3" in codes <==> '3' in a) && ("4" in codes <==> '4' in a) && ("5" in codes <==> '5' in a)
  {
    assert "0" in Split(JoinCodes(a)) <==> '0' in a by { IncludesIsMembership(a, '0'); }
    assert "1" in Split(JoinCodes(a)) <==> '1' in a by { IncludesIsMembership(a, '1'); }
    assert "2" in Split(JoinCodes(a)) <==> '2' in a by { IncludesIsMembership(a, '2'); }
    assert "3" in Split(JoinCodes(a)) <==> '3' in a by { IncludesIsMembership(a, '3'); }
    assert "4" in Split(JoinCodes(a)) <==> '4' in a by { IncludesIsMembership(a, '4'); }
    assert "5" in Split(JoinCodes(a)) <==> '5' in a by { IncludesIsMembership(a, '5'); }
  }

  /** `version_type.split(',').includes(k)` holds exactly when `k` is one of the
    * joined codes; an empty list is stored as "" and splits to `[""]`. */
  lemma IncludesIsMembership(codes: seq<char>, k: char)
    requires ',' !in codes
    ensures [k] in Split(JoinCodes(codes)) <==> k in codes
  {
    if |codes| == 0 {
      assert JoinCodes(codes) == "";
      assert Split("") == [""];
    } else {
      SplitJoinCodes(codes);
      if k in codes {
        var i :| 0 <= i < |codes| && codes[i] == k;
        assert Singletons(codes)[i] == [k];
      }
    }
  }

  /** Appending "k," to the accumulated text is tagging one more code. */
  lemma TaggedSnoc(codes: seq<char>, c: char)
    ensures Tagged(codes + [c]) == Tagged(codes) + [c, ',']
  {
    assert (codes + [c])[..|codes|] == codes;
  }
}
