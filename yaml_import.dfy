/** The classification part of `uploadYaml` (controller/projects/index.ts):
  * how the parameters of a Swagger operation become typed request-parameter
  * groups, and how response keys become status codes. */
module YamlImport {
  import opened Wrappers
  import opened Text
  import opened RequestParams

  /** A Swagger parameter: where it goes (`in`), its name, description and
    * declared type. */
  datatype SwaggerParam = SwaggerParam(location: string, name: string, description: string, param_type: string)

  /** The class code of a parameter (0 Params, 1 Body form-data, 2 Body
    * x-www-form-urlencoded, 3 Cookie, 4 Header) for an operation of method
    * `api_method`: a GET maps query, header and cookie; a POST maps formData,
    * query, cookie and header; everything else is 0. */
  function ParamClass(api_method: string, location: string): (r: int)
    ensures 0 <= r <= 4
    ensures r == 1 <==> api_method == "POST" && location == "formData"
    ensures r == 2 <==> api_method == "POST" && location == "query"
    ensures r == 3 <==> (api_method == "GET" || api_method == "POST") && location == "cookie"
    ensures r == 4 <==> (api_method == "GET" || api_method == "POST") && location == "header"
  {
    if api_method == "GET" then
      if location == "query" then 0
      else if location == "header" then 4
      else if location == "cookie" then 3
      else 0
    else if api_method == "POST" then
      if location == "formData" then 1
      else if location == "query" then 2
      else if location == "cookie" then 3
      else if location == "header" then 4
      else 0
    else 0
  }

  /** The `param_type` code: number 0, integer 1, string 2, anything else 3. */
  function ParamTypeCode(t: string): (r: int)
    ensures 0 <= r <= 3
    ensures r == 0 <==> t == "number"
    ensures r == 1 <==> t == "integer"
    ensures r == 2 <==> t == "string"
  {
    if t == "number" then 0 else if t == "integer" then 1 else if t == "string" then 2 else 3
  }

  /** The entry a parameter becomes; imported parameters carry no value. */
  function EntryOf(p: SwaggerParam): (r: ParamEntry)
    ensures r.param_name == p.name && 0 <= r.param_type <= 3 && r.param_value == Absent
  {
    ParamEntry(p.name, ParamTypeCode(p.param_type), p.description, Absent)
  }

  /** The class of every parameter, in order. */
  function Classes(api_method: string, ps: seq<SwaggerParam>): (r: seq<int>)
    ensures |r| == |ps| && forall i :: 0 <= i < |ps| ==> r[i] == ParamClass(api_method, ps[i].location)
  {
    if |ps| == 0 then []
    else Classes(api_method, ps[..|ps| - 1]) + [ParamClass(api_method, ps[|ps| - 1].location)]
  }

  /** The entries of the parameters of class `k`, in order. */
  function EntriesOf(api_method: string, ps: seq<SwaggerParam>, k: int): (r: seq<ParamEntry>)
    ensures |r| <= |ps|
    ensures forall i :: 0 <= i < |r| ==> r[i].param_value == Absent
  {
    if |ps| == 0 then []
    else
      var p := ps[|ps| - 1];
      EntriesOf(api_method, ps[..|ps| - 1], k) + if ParamClass(api_method, p.location) == k then [EntryOf(p)] else []
  }

  /** The distinct values of `s` in the order they first occur. */
  function FirstSeen(s: seq<int>): (r: seq<int>)
    ensures forall i, j :: 0 <= i < j < |r| ==> r[i] != r[j]
    ensures forall i :: 0 <= i < |r| ==> r[i] in s
  {
    if |s| == 0 then []
    else
      var d := FirstSeen(s[..|s| - 1]);
      if s[|s| - 1] in d then d else d + [s[|s| - 1]]
  }

  /** `api_request_params.findIndex((item) => item.type === k)`. */
  function FindGroup(groups: seq<ParamGroup>, k: int): (r: int)
    ensures -1 <= r < |groups|
    ensures r == -1 <==> forall j :: 0 <= j < |groups| ==> groups[j].kind != k
    ensures r >= 0 ==> groups[r].kind == k && forall j :: 0 <= j < r ==> groups[j].kind != k
  {
    if |groups| == 0 then -1
    else
      var r := FindGroup(groups[..|groups| - 1], k);
      if r >= 0 then r else if groups[|groups| - 1].kind == k then |groups| - 1 else -1
  }

  /* ---------- properties of the specification ---------- */

  /** First-seen order lists each value of `s` once and nothing else. */
  lemma {:induction false} FirstSeenMembers(s: seq<int>)
    ensures forall x :: x in FirstSeen(s) <==> x in s
    ensures forall i, j :: 0 <= i < j < |FirstSeen(s)| ==> FirstSeen(s)[i] != FirstSeen(s)[j]
  {
    if |s| > 0 {
      FirstSeenMembers(s[..|s| - 1]);
      assert s == s[..|s| - 1] + [s[|s| - 1]];
    }
  }

  /** Every parameter lands in the group of its class, and the entries of a
    * class are exactly the parameters of that class. */
  lemma {:induction false} EntriesMembers(api_method: string, ps: seq<SwaggerParam>, k: int, e: ParamEntry)
    ensures e in EntriesOf(api_method, ps, k) <==> exists i :: 0 <= i < |ps| && ParamClass(api_method, ps[i].location) == k && EntryOf(ps[i]) == e
  {
    if |ps| > 0 {
      var init := ps[..|ps| - 1];
      EntriesMembers(api_method, init, k, e);
      assert forall i :: 0 <= i < |init| ==> init[i] == ps[i];
    }
  }

  /* ---------- the imperative grouping ---------- */

  /** `groups` is the grouping of the first `n` parameters: one group per
    * class in first-seen order, each with the entries of its class. */
  ghost predicate GroupedUpTo(api_method: string, ps: seq<SwaggerParam>, n: nat, groups: seq<ParamGroup>)
    requires n <= |ps|
  {
    var seen := FirstSeen(Classes(api_method, ps[..n]));
    && |groups| == |seen|
    && (forall j :: 0 <= j < |groups| ==> groups[j].kind == seen[j])
    && (forall j :: 0 <= j < |groups| ==> groups[j].params_list == EntriesOf(api_method, ps[..n], groups[j].kind))
  }

  /** Step 2.2 of `uploadYaml`: each parameter classified and pushed into the
    * group of its class, a new group being opened the first time a class is
    * met. The groups come out in first-seen order of their classes, each
    * class once, each holding its parameters in order. */
  method GroupParameters(api_method: string, ps: seq<SwaggerParam>) returns (groups: seq<ParamGroup>)
    ensures |groups| == |FirstSeen(Classes(api_method, ps))|
    ensures forall j :: 0 <= j < |groups| ==> groups[j].kind == FirstSeen(Classes(api_method, ps))[j]
    ensures forall j :: 0 <= j < |groups| ==> groups[j].params_list == EntriesOf(api_method, ps, groups[j].kind)
  {
    groups := [];
    for i := 0 to |ps|
      invariant GroupedUpTo(api_method, ps, i, groups)
    {
      var k := ParamClass(api_method, ps[i].location);
      var e := EntryOf(ps[i]);
      var index := FindGroup(groups, k);
      if index == -1 {
        OpenGroupStep(api_method, ps, i, groups);
        groups := groups + [ParamGroup(k, [e])];
      } else {
        ExtendGroupStep(api_method, ps, i, groups, index);
        groups := groups[index := groups[index].(params_list := groups[index].params_list + [e])];
      }
    }
    assert ps[..|ps|] == ps;
  }

  /** A parameter of a class not met yet opens a new group at the end. */
  lemma OpenGroupStep(api_method: string, ps: seq<SwaggerParam>, i: nat, groups: seq<ParamGroup>)
    requires i < |ps| && GroupedUpTo(api_method, ps, i, groups)
    requires FindGroup(groups, ParamClass(api_method, ps[i].location)) == -1
    ensures GroupedUpTo(api_method, ps, i + 1, groups + [ParamGroup(ParamClass(api_method, ps[i].location), [EntryOf(ps[i])])])
  {
    var k := ParamClass(api_method, ps[i].location);
    var e := EntryOf(ps[i]);
    var seen := FirstSeen(Classes(api_method, ps[..i]));
    assert k !in seen;
    assert FirstSeen(Classes(api_method, ps[..i + 1])) == seen + [k] by {
      ClassesSnoc(api_method, ps, i);
    }
    assert EntriesOf(api_method, ps[..i + 1], k) == [e] by {
      EntriesSnoc(api_method, ps, i, k);
      NoEntriesUnseen(api_method, ps[..i], k);
    }
    var r := groups + [ParamGroup(k, [e])];
    forall j | 0 <= j < |groups|
      ensures r[j].params_list == EntriesOf(api_method, ps[..i + 1], r[j].kind)
    {
      EntriesSnoc(api_method, ps, i, groups[j].kind);
      assert groups[j].kind == seen[j];
    }
  }

  /** A parameter of a class already met joins the end of that class's group. */
  lemma ExtendGroupStep(api_method: string, ps: seq<SwaggerParam>, i: nat, groups: seq<ParamGroup>, index: int)
    requires i < |ps| && GroupedUpTo(api_method, ps, i, groups)
    requires index == FindGroup(groups, ParamClass(api_method, ps[i].location)) && index >= 0
    ensures GroupedUpTo(api_method, ps, i + 1,
      groups[index := groups[index].(params_list := groups[index].params_list + [EntryOf(ps[i])])])
  {
    var k := ParamClass(api_method, ps[i].location);
    var e := EntryOf(ps[i]);
    var seen := FirstSeen(Classes(api_method, ps[..i]));
    assert FirstSeen(Classes(api_method, ps[..i + 1])) == seen by {
      ClassesSnoc(api_method, ps, i);
    }
    var r := groups[index := groups[index].(params_list := groups[index].params_list + [e])];
    forall j | 0 <= j < |r|
      ensures r[j].kind == seen[j] && r[j].params_list == EntriesOf(api_method, ps[..i + 1], r[j].kind)
    {
      ExtendedGroupAt(api_method, ps, i, groups, index, j);
    }
  }

  /** After the push, group `j` keeps its class and holds the entries of its
    * class among the first `i + 1` parameters. */
  lemma ExtendedGroupAt(api_method: string, ps: seq<SwaggerParam>, i: nat, groups: seq<ParamGroup>, index: int, j: int)
    requires i < |ps| && GroupedUpTo(api_method, ps, i, groups)
    requires index == FindGroup(groups, ParamClass(api_method, ps[i].location)) && index >= 0
    requires 0 <= j < |groups|
    ensures var r := groups[index := groups[index].(params_list := groups[index].params_list + [EntryOf(ps[i])])];
      r[j].kind == groups[j].kind && r[j].params_list == EntriesOf(api_method, ps[..i + 1], r[j].kind)
  {
    if j == index {
      EntriesSnoc(api_method, ps, i, groups[j].kind);
    } else {
      OtherGroupKept(api_method, ps, i, groups, index, j);
    }
  }

  /** A group of another class than the parameter's keeps its entries. */
  lemma OtherGroupKept(api_method: string, ps: seq<SwaggerParam>, i: nat, groups: seq<ParamGroup>, index: int, j: int)
    requires i < |ps| && GroupedUpTo(api_method, ps, i, groups)
    requires 0 <= index < |groups| && groups[index].kind == ParamClass(api_method, ps[i].location)
    requires 0 <= j < |groups| && j != index
    ensures groups[j].params_list == EntriesOf(api_method, ps[..i + 1], groups[j].kind)
  {
    var seen := FirstSeen(Classes(api_method, ps[..i]));
    assert groups[j].kind != groups[index].kind by {
      FirstSeenMembers(Classes(api_method, ps[..i]));
      assert groups[j].kind == seen[j] && groups[index].kind == seen[index];
    }
    EntriesSnoc(api_method, ps, i, groups[j].kind);
  }

  lemma ClassesSnoc(api_method: string, ps: seq<SwaggerParam>, i: nat)
    requires i < |ps|
    ensures Classes(api_method, ps[..i + 1]) == Classes(api_method, ps[..i]) + [ParamClass(api_method, ps[i].location)]
  {
    assert ps[..i + 1][..i] == ps[..i];
  }

  lemma EntriesSnoc(api_method: string, ps: seq<SwaggerParam>, i: nat, k: int)
    requires i < |ps|
    ensures EntriesOf(api_method, ps[..i + 1], k)
         == EntriesOf(api_method, ps[..i], k) + if ParamClass(api_method, ps[i].location) == k then [EntryOf(ps[i])] else []
  {
    assert ps[..i + 1][..i] == ps[..i];
  }

  /** A class not met yet has no entries. */
  lemma NoEntriesUnseen(api_method: string, ps: seq<SwaggerParam>, k: int)
    requires k !in FirstSeen(Classes(api_method, ps))
    ensures EntriesOf(api_method, ps, k) == []
  {
    FirstSeenMembers(Classes(api_method, ps));
    if EntriesOf(api_method, ps, k) != [] {
      EntriesMembers(api_method, ps, k, EntriesOf(api_method, ps, k)[0]);
    }
  }

  /* ---------- response keys ---------- */

  /** What JavaScript's `Number(key)` gives for a response key. */
  datatype NumberValue = Finite(n: int) | NaN

  /** `Number(s)` for the empty string and for plain decimal digits; every
    * other key is treated as not a number. */
  function JsNumber(s: string): (r: NumberValue)
    ensures s == "" ==> r == Finite(0)
    ensures r.NaN? <==> exists i :: 0 <= i < |s| && !IsDigit(s[i])
  {
    if forall i :: 0 <= i < |s| ==> IsDigit(s[i]) then Finite(ParseDigits(s)) else NaN
  }

  /** `key === 'default' ? 0 : Number(key)`. */
  function ResponseStatus(key: string): (r: NumberValue)
    ensures key == "default" ==> r == Finite(0)
  {
    if key == "default" then Finite(0) else JsNumber(key)
  }

  /** A decimal status key reads back as the status it writes, and the key
    * `default` cannot be told apart from status 0. */
  lemma ResponseStatusRoundTrip(n: nat)
    ensures ResponseStatus(NatToString(n)) == Finite(n)
    ensures ResponseStatus("default") == ResponseStatus(NatToString(0))
  {
    var s := NatToString(n);
    assert s != "default" by {
      assert IsDigit(s[0]) && !IsDigit("default"[0]);
    }
    assert NatToString(0) == "0";
    assert ParseDigits("0") == 10 * ParseDigits("") + 0;
  }

  /** A response of the Swagger operation: its key, its description and its
    * schema, taken as the text `JSON.stringify` gives of the schema as stored.
    * `replaceRef` discards the results of its recursive calls, so only a
    * `$ref` at the top of the schema is replaced by its definition. */
  datatype SwaggerResponse = SwaggerResponse(key: string, description: string, schema_text: string)

  /** A response as the import stores it. */
  datatype ImportedResponse = ImportedResponse(http_status: NumberValue, response_body: string, response_name: string)

  /** Step 2.4 of `uploadYaml`: each response, with its key turned into a
    * status. `src` is in the order `for...in` visits the keys: integer-like
    * keys ascending first, then the other keys in insertion order. */
  method ImportResponses(src: seq<SwaggerResponse>) returns (r: seq<ImportedResponse>)
    ensures |r| == |src|
    ensures forall i :: 0 <= i < |src| ==> r[i].http_status == ResponseStatus(src[i].key)
                                           && r[i].response_body == src[i].schema_text
                                           && r[i].response_name == src[i].description
  {
    r := [];
    for i := 0 to |src|
      invariant |r| == i
      invariant forall j :: 0 <= j < i ==> r[j].http_status == ResponseStatus(src[j].key)
                                           && r[j].response_body == src[j].schema_text
                                           && r[j].response_name == src[j].description
    {
      r := r + [ImportedResponse(ResponseStatus(src[i].key), src[i].schema_text, src[i].description)];
    }
  }
}
