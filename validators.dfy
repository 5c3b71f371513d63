/** The custom rules of paramsValidator/teamsValidator.ts and
  * paramsValidator/usersValidator.ts: the `atLeastOneOf` check and the
  * six-digit captcha pattern. */
module Validators {
  import opened Wrappers
  import opened Text

  /** The request body as the validators see it: `None` is a `null` or
    * `undefined` body, otherwise the set of its keys. */
  type Body = Option<set<string>>

  /** `req.body ?? {}`: the keys of the body, none for a missing one. */
  function KeysOf(body: Body): set<string> {
    if body.Some? then body.value else {}
  }

  /** `params.some((param) => param in body)`. */
  function SomeIn(params: seq<string>, keys: set<string>): (r: bool)
    ensures r <==> exists i :: 0 <= i < |params| && params[i] in keys
  {
    if |params| == 0 then false
    else if params[|params| - 1] in keys then true
    else
      var r := SomeIn(params[..|params| - 1], keys);
      assert r <==> exists i :: 0 <= i < |params| && params[i] in keys by {
        if exists i :: 0 <= i < |params| && params[i] in keys {
          var i :| 0 <= i < |params| && params[i] in keys;
          assert params[..|params| - 1][i] == params[i];
        }
      }
      r
  }

  /** `atLeastOneOf(params, _, { req })`: `true` when one of the names is a key
    * of the body, whatever its value; otherwise the validator throws. */
  function AtLeastOneOf(params: seq<string>, body: Body): (r: Result<bool, string>)
    ensures r.Ok? <==> body.Some? && exists i :: 0 <= i < |params| && params[i] in body.value
    ensures r.Ok? ==> r.value
    ensures r.Err? ==> r.error == "At least one of the specified parameters is required"
  {
    if SomeIn(params, KeysOf(body)) then Ok(true)
    else Err("At least one of the specified parameters is required")
  }

  /** The one-of list of `update-team`. */
  const UpdateTeamOneOf: seq<string> := ["team_name", "team_desc", "team_user_name"]

  /** The one-of list of `set-member-identity` (the field name is spelled
    * `team_project_indentity_list` in the source). */
  const SetMemberIdentityOneOf: seq<string> := ["team_user_identity", "team_user_name", "team_project_indentity_list"]

  /** The one-of list of `update-info`. */
  const UpdateInfoOneOf: seq<string> := ["username", "introduce"]

  /** `update-team` passes exactly when the body names the team, its
    * description or the member's name. */
  lemma UpdateTeamRule(keys: set<string>)
    ensures AtLeastOneOf(UpdateTeamOneOf, Some(keys)).Ok?
        <==> "team_name" in keys || "team_desc" in keys || "team_user_name" in keys
  {
    assert UpdateTeamOneOf[0] == "team_name" && UpdateTeamOneOf[1] == "team_desc" && UpdateTeamOneOf[2] == "team_user_name";
  }

  /** `set-member-identity` passes exactly when the body carries an identity,
    * a member name or a project identity list. */
  lemma SetMemberIdentityRule(keys: set<string>)
    ensures AtLeastOneOf(SetMemberIdentityOneOf, Some(keys)).Ok?
        <==> "team_user_identity" in keys || "team_user_name" in keys || "team_project_indentity_list" in keys
  {
    assert SetMemberIdentityOneOf[0] == "team_user_identity" && SetMemberIdentityOneOf[1] == "team_user_name"
      && SetMemberIdentityOneOf[2] == "team_project_indentity_list";
  }

  /** `update-info` passes exactly when the body carries a user name or an
    * introduction. */
  lemma UpdateInfoRule(keys: set<string>)
    ensures AtLeastOneOf(UpdateInfoOneOf, Some(keys)).Ok? <==> "username" in keys || "introduce" in keys
  {
    assert UpdateInfoOneOf[0] == "username" && UpdateInfoOneOf[1] == "introduce";
  }

  /** A missing body fails every one-of rule. */
  lemma MissingBodyFails(params: seq<string>)
    ensures AtLeastOneOf(params, None).Err?
  {
  }

  /** The regular expression `^\d{n}$` read left to right: `n` characters
    * 0 to 9 and nothing after them. */
  predicate DigitsExactly(s: string, n: nat)
    ensures DigitsExactly(s, n) ==> |s| == n
    decreases n
  {
    if n == 0 then s == "" else |s| > 0 && IsDigit(s[0]) && DigitsExactly(s[1..], n - 1)
  }

  /** The `captcha` rule of `register`, `change-password` and `change-email`:
    * a string field matching `^\d{6}$`; a missing or non-string field fails. */
  predicate CaptchaValid(captcha: Option<string>)
    ensures CaptchaValid(captcha) ==> captcha.Some? && |captcha.value| == 6
  {
    captcha.Some? && DigitsExactly(captcha.value, 6)
  }

  /** The pattern accepts exactly the strings of `n` decimal digits. */
  lemma {:induction false} DigitsExactlyIff(s: string, n: nat)
    ensures DigitsExactly(s, n) <==> |s| == n && forall i :: 0 <= i < |s| ==> IsDigit(s[i])
    decreases n
  {
    if n > 0 && |s| > 0 {
      DigitsExactlyIff(s[1..], n - 1);
      assert forall i :: 1 <= i < |s| ==> s[i] == s[1..][i - 1];
    }
  }

  /** A valid captcha is six digits, so it reads as a number below one million,
    * and every such number written with six digits is a valid captcha. */
  lemma CaptchaIsSixDigitNumber(s: string)
    ensures CaptchaValid(Some(s)) <==> |s| == 6 && forall i :: 0 <= i < |s| ==> IsDigit(s[i])
    ensures CaptchaValid(Some(s)) ==> (forall i :: 0 <= i < |s| ==> IsDigit(s[i])) && ParseDigits(s) < 1000000
    ensures forall n: nat :: n < 1000000 && s == SixDigits(n) ==> CaptchaValid(Some(s)) && ParseDigits(s) == n
  {
    DigitsExactlyIff(s, 6);
    if CaptchaValid(Some(s)) {
      ParseBelow(s);
      assert Pow10(6) == 1000000 by {
        assert Pow10(1) == 10 && Pow10(2) == 100 && Pow10(3) == 1000 && Pow10(4) == 10000 && Pow10(5) == 100000;
      }
    }
    forall n: nat | n < 1000000 && s == SixDigits(n)
      ensures CaptchaValid(Some(s)) && ParseDigits(s) == n
    {
      SixDigitsParse(n);
    }
  }

  /** `n` written with exactly six digits, leading zeros included. */
  function SixDigits(n: nat): string {
    PaddedDigits(n, 6)
  }

  /** The last `k` decimal digits of `n`, leading zeros included. */
  function PaddedDigits(n: nat, k: nat): (r: string)
    ensures |r| == k && forall i :: 0 <= i < |r| ==> IsDigit(r[i])
  {
    if k == 0 then [] else PaddedDigits(n / 10, k - 1) + [DigitChar(n % 10)]
  }

  lemma {:induction false} PaddedDigitsParse(n: nat, k: nat)
    requires n < Pow10(k)
    ensures ParseDigits(PaddedDigits(n, k)) == n
  {
    if k > 0 {
      var q, d := n / 10, n % 10;
      assert 10 * q + d == n && q < Pow10(k - 1) by {
        QuotientBelow(n, Pow10(k - 1));
      }
      var r := PaddedDigits(n, k);
      var front := PaddedDigits(q, k - 1);
      assert r[..|r| - 1] == front && r[|r| - 1] == DigitChar(d);
      PaddedDigitsParse(q, k - 1);
      assert ParseDigits(r) == 10 * ParseDigits(front) + d;
    }
  }

  lemma QuotientBelow(n: nat, p: nat)
    requires n < 10 * p
    ensures 10 * (n / 10) + n % 10 == n && n / 10 < p
  {
  }

  lemma SixDigitsParse(n: nat)
    requires n < 1000000
    ensures |SixDigits(n)| == 6 && (forall i :: 0 <= i < 6 ==> IsDigit(SixDigits(n)[i]))
    ensures ParseDigits(SixDigits(n)) == n
  {
    assert Pow10(6) == 1000000 by {
      assert Pow10(1) == 10 && Pow10(2) == 100 && Pow10(3) == 1000 && Pow10(4) == 10000 && Pow10(5) == 100000;
    }
    PaddedDigitsParse(n, 6);
  }

  lemma {:induction false} ParseBelow(s: string)
    requires forall i :: 0 <= i < |s| ==> IsDigit(s[i])
    ensures ParseDigits(s) < Pow10(|s|)
  {
    if |s| > 0 {
      ParseBelow(s[..|s| - 1]);
    }
  }

  function Pow10(n: nat): (r: nat)
    ensures r >= 1
  {
    if n == 0 then 1 else 10 * Pow10(n - 1)
  }
}
