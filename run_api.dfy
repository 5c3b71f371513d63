/** The request assembly of `runApi` (controller/apis/index.ts): the
  * parameters of the request are sorted into buckets by class, the project's
  * global parameters are appended, and the buckets are folded into the
  * query, header and body of the outgoing request. */
module RunApi {
  import opened Wrappers
  import opened RequestParams

  /** One `{ key, value }` pair pushed into a bucket. */
  datatype Pair = Pair(key: string, value: ParamValue)

  /** The five arrays `runApi` fills: `Params`, `Body_formData`,
    * `Body_wwwFormUrlencoded`, `Cookies` and `Header`. */
  datatype Buckets = Buckets(
    params: seq<Pair>, form_data: seq<Pair>, urlencoded: seq<Pair>,
    cookies: seq<Pair>, header: seq<Pair>)

  /** A `global_params` row of the project: `father_type` 0 is a header,
    * 1 a cookie, 2 a query parameter. `value` is the value pushed, after
    * a stored string has been unwrapped by `JSON.parse(...).value`. */
  datatype GlobalParam = GlobalParam(father_type: int, param_name: string, value: ParamValue)

  /** The body of the outgoing request: the empty object `{}`, a url-encoded
    * object (the argument of `qs.stringify`) or the JSON text. */
  datatype Data = EmptyObject | Encoded(fields: map<string, ParamValue>) | Json(text: string)

  /** The parts of the `axios` configuration that the assembly decides;
    * `verb` is its `method`. */
  datatype Config = Config(
    verb: string, url: string, params: map<string, ParamValue>,
    data: Data, headers: map<string, ParamValue>)

  /* ---------- specification ---------- */

  /** The entries of one `params_list` whose name is not empty, as pairs, in order. */
  function Named(entries: seq<ParamEntry>): (r: seq<Pair>)
    ensures |r| <= |entries|
    ensures forall i :: 0 <= i < |r| ==> r[i].key != ""
  {
    if |entries| == 0 then []
    else
      var e := entries[|entries| - 1];
      Named(entries[..|entries| - 1]) + if e.param_name != "" then [Pair(e.param_name, e.param_value)] else []
  }

  /** The bucket of class `k`: the named entries of every group of class `k`,
    * group by group. */
  function Bucket(groups: seq<ParamGroup>, k: int): (r: seq<Pair>)
    ensures forall i :: 0 <= i < |r| ==> r[i].key != ""
  {
    if |groups| == 0 then []
    else
      var g := groups[|groups| - 1];
      Bucket(groups[..|groups| - 1], k) + if g.kind == k then Named(g.params_list) else []
  }

  /** The globals of `father_type` `t`, as pairs, in table order. */
  function GlobalsOf(globals: seq<GlobalParam>, t: int): (r: seq<Pair>)
    ensures |r| <= |globals|
  {
    if |globals| == 0 then []
    else
      var g := globals[|globals| - 1];
      GlobalsOf(globals[..|globals| - 1], t) + if g.father_type == t then [Pair(g.param_name, g.value)] else []
  }

  /** `pairs.reduce((acc, cur) => { acc[cur.key] = cur.value; return acc; }, {})`. */
  function ToObject(pairs: seq<Pair>): (r: map<string, ParamValue>)
    ensures |pairs| > 0 ==> pairs[|pairs| - 1].key in r && r[pairs[|pairs| - 1].key] == pairs[|pairs| - 1].value
  {
    if |pairs| == 0 then map[]
    else
      var last := pairs[|pairs| - 1];
      ToObject(pairs[..|pairs| - 1])[last.key := last.value]
  }

  /** `if (api_request_JSON) Body_JSON = api_request_JSON`: an absent or empty
    * JSON text leaves the body text empty. */
  function BodyJson(json: Option<string>): (r: string)
    ensures r == "" <==> json.None? || json.value == ""
    ensures r != "" ==> r == json.value
  {
    if json.Some? then json.value else ""
  }

  /* ---------- properties of the specification ---------- */

  /** An entry reaches the bucket of class `k` exactly when it is named and
    * sits in a group of class `k`. */
  lemma {:induction false} NamedMembers(entries: seq<ParamEntry>, p: Pair)
    ensures p in Named(entries) <==> exists i :: 0 <= i < |entries| && entries[i].param_name == p.key != ""
                                                && entries[i].param_value == p.value
  {
    if |entries| > 0 {
      var init := entries[..|entries| - 1];
      NamedMembers(init, p);
      assert forall i :: 0 <= i < |init| ==> init[i] == entries[i];
    }
  }

  lemma {:induction false} BucketMembers(groups: seq<ParamGroup>, k: int, p: Pair)
    ensures p in Bucket(groups, k) <==> exists g :: 0 <= g < |groups| && groups[g].kind == k && p in Named(groups[g].params_list)
  {
    if |groups| > 0 {
      var init := groups[..|groups| - 1];
      BucketMembers(init, k, p);
      assert forall g :: 0 <= g < |init| ==> init[g] == groups[g];
    }
  }

  /** A group whose class is not 0 to 4 reaches no bucket. */
  lemma {:induction false} OtherClassesDropped(groups: seq<ParamGroup>, k: int)
    requires forall g :: 0 <= g < |groups| ==> groups[g].kind != k
    ensures Bucket(groups, k) == []
  {
    if |groups| > 0 {
      OtherClassesDropped(groups[..|groups| - 1], k);
    }
  }

  /** The later duplicate key wins: the object maps each key to the value of
    * the last pair that carries it, and has no other keys. */
  lemma {:induction false} ToObjectLastWins(pairs: seq<Pair>, i: nat)
    requires i < |pairs|
    requires forall j :: i < j < |pairs| ==> pairs[j].key != pairs[i].key
    ensures pairs[i].key in ToObject(pairs) && ToObject(pairs)[pairs[i].key] == pairs[i].value
  {
    if i < |pairs| - 1 {
      ToObjectLastWins(pairs[..|pairs| - 1], i);
    }
  }

  lemma {:induction false} ToObjectKeys(pairs: seq<Pair>, key: string)
    ensures key in ToObject(pairs) <==> exists i :: 0 <= i < |pairs| && pairs[i].key == key
  {
    if |pairs| > 0 {
      var init := pairs[..|pairs| - 1];
      ToObjectKeys(init, key);
      assert forall i :: 0 <= i < |init| ==> init[i] == pairs[i];
    }
  }

  /** Appended pairs override earlier ones with the same key: a global
    * parameter shadows a request parameter of the same name. */
  lemma {:induction false} ToObjectAppend(a: seq<Pair>, b: seq<Pair>, key: string)
    ensures key in ToObject(b) ==> key in ToObject(a + b) && ToObject(a + b)[key] == ToObject(b)[key]
    ensures key !in ToObject(b) ==> (key in ToObject(a + b) <==> key in ToObject(a))
                                     && (key in ToObject(a) ==> ToObject(a + b)[key] == ToObject(a)[key])
  {
    if |b| > 0 {
      assert (a + b)[..|a + b| - 1] == a + b[..|b| - 1];
      ToObjectAppend(a, b[..|b| - 1], key);
    } else {
      assert a + b == a;
    }
  }

  /* ---------- the imperative assembly ---------- */

  /** `params_list.forEach(...)` for one group: push every named entry. */
  method PushNamed(bucket: seq<Pair>, entries: seq<ParamEntry>) returns (r: seq<Pair>)
    ensures r == bucket + Named(entries)
  {
    r := bucket;
    for j := 0 to |entries|
      invariant r == bucket + Named(entries[..j])
    {
      assert entries[..j + 1][..j] == entries[..j];
      if entries[j].param_name != "" {
        r := r + [Pair(entries[j].param_name, entries[j].param_value)];
      }
    }
    assert entries[..|entries|] == entries;
  }

  /** Step 2 of `runApi`: every group's named entries pushed into the bucket
    * of its class (0 Params, 1 form-data, 2 url-encoded, 3 Cookies, 4 Header). */
  method BucketParams(groups: seq<ParamGroup>) returns (b: Buckets)
    ensures b.params == Bucket(groups, 0) && b.form_data == Bucket(groups, 1)
    ensures b.urlencoded == Bucket(groups, 2) && b.cookies == Bucket(groups, 3)
    ensures b.header == Bucket(groups, 4)
  {
    b := Buckets([], [], [], [], []);
    for g := 0 to |groups|
      invariant b.params == Bucket(groups[..g], 0) && b.form_data == Bucket(groups[..g], 1)
      invariant b.urlencoded == Bucket(groups[..g], 2) && b.cookies == Bucket(groups[..g], 3)
      invariant b.header == Bucket(groups[..g], 4)
    {
      assert groups[..g + 1][..g] == groups[..g];
      var item := groups[g];
      if item.kind == 0 {
        var p := PushNamed(b.params, item.params_list);
        b := b.(params := p);
      }
      if item.kind == 1 {
        var p := PushNamed(b.form_data, item.params_list);
        b := b.(form_data := p);
      }
      if item.kind == 2 {
        var p := PushNamed(b.urlencoded, item.params_list);
        b := b.(urlencoded := p);
      }
      if item.kind == 3 {
        var p := PushNamed(b.cookies, item.params_list);
        b := b.(cookies := p);
      }
      if item.kind == 4 {
        var p := PushNamed(b.header, item.params_list);
        b := b.(header := p);
      }
    }
    assert groups[..|groups|] == groups;
  }

  /** Step 4 of `runApi`: each global parameter of the project appended to
    * `Header`, `Cookies` or `Params` by its `father_type`; other rows are
    * skipped and the body buckets are untouched. */
  method MergeGlobals(b: Buckets, globals: seq<GlobalParam>) returns (r: Buckets)
    ensures r.header == b.header + GlobalsOf(globals, 0)
    ensures r.cookies == b.cookies + GlobalsOf(globals, 1)
    ensures r.params == b.params + GlobalsOf(globals, 2)
    ensures r.form_data == b.form_data && r.urlencoded == b.urlencoded
  {
    r := b;
    for i := 0 to |globals|
      invariant r.header == b.header + GlobalsOf(globals[..i], 0)
      invariant r.cookies == b.cookies + GlobalsOf(globals[..i], 1)
      invariant r.params == b.params + GlobalsOf(globals[..i], 2)
      invariant r.form_data == b.form_data && r.urlencoded == b.urlencoded
    {
      assert globals[..i + 1][..i] == globals[..i];
      var item := globals[i];
      var pair := Pair(item.param_name, item.value);
      if item.father_type == 0 {
        r := r.(header := r.header + [pair]);
      }
      if item.father_type == 1 {
        r := r.(cookies := r.cookies + [pair]);
      }
      if item.father_type == 2 {
        r := r.(params := r.params + [pair]);
      }
    }
    assert globals[..|globals|] == globals;
  }

  /** Step 5 of `runApi`: the request configuration. The query and headers
    * are the folded `Params` and `Header`; only a POST carries a body, and
    * there a non-empty JSON text wins over url-encoded pairs, which win over
    * form-data pairs, each choice also setting `Content-Type`. `Cookies` is
    * never read. */
  method BuildConfig(api_method: string, url: string, b: Buckets, body_json: string) returns (cfg: Config)
    ensures cfg.verb == api_method && cfg.url == url && cfg.params == ToObject(b.params)
    ensures api_method != "POST" ==> cfg.data == EmptyObject && cfg.headers == ToObject(b.header)
    ensures api_method == "POST" && body_json != "" ==>
      cfg.data == Json(body_json) && cfg.headers == ToObject(b.header)["Content-Type" := Str("application/json")]
    ensures api_method == "POST" && body_json == "" && |b.urlencoded| > 0 ==>
      cfg.data == Encoded(ToObject(b.urlencoded))
      && cfg.headers == ToObject(b.header)["Content-Type" := Str("application/x-www-form-urlencoded")]
    ensures api_method == "POST" && body_json == "" && |b.urlencoded| == 0 && |b.form_data| > 0 ==>
      cfg.data == Encoded(ToObject(b.form_data))
      && cfg.headers == ToObject(b.header)["Content-Type" := Str("multipart/form-data")]
    ensures api_method == "POST" && body_json == "" && |b.urlencoded| == 0 && |b.form_data| == 0 ==>
      cfg.data == EmptyObject && cfg.headers == ToObject(b.header)
  {
    cfg := Config(api_method, url, ToObject(b.params), EmptyObject, ToObject(b.header));
    if api_method == "POST" {
      if |b.form_data| > 0 {
        cfg := cfg.(data := Encoded(ToObject(b.form_data)),
                    headers := cfg.headers["Content-Type" := Str("multipart/form-data")]);
      }
      if |b.urlencoded| > 0 {
        cfg := cfg.(data := Encoded(ToObject(b.urlencoded)),
                    headers := cfg.headers["Content-Type" := Str("application/x-www-form-urlencoded")]);
      }
      if body_json != "" {
        cfg := cfg.(data := Json(body_json),
                    headers := cfg.headers["Content-Type" := Str("application/json")]);
      }
    }
  }

  /** The assembly of `runApi` before the request is sent, for an api with
    * method `api_method` at `base_url + api_url`. */
  method AssembleRequest(api_method: string, base_url: string, api_url: string, groups: seq<ParamGroup>,
                         json: Option<string>, globals: seq<GlobalParam>) returns (cfg: Config)
    ensures cfg.verb == api_method && cfg.url == base_url + api_url
    ensures cfg.params == ToObject(Bucket(groups, 0) + GlobalsOf(globals, 2))
    ensures api_method != "POST" ==> cfg.data == EmptyObject
    ensures var headers := ToObject(Bucket(groups, 4) + GlobalsOf(globals, 0));
      && (api_method != "POST" ==> cfg.headers == headers)
      && (api_method == "POST" && BodyJson(json) != "" ==>
            cfg.data == Json(BodyJson(json)) && cfg.headers == headers["Content-Type" := Str("application/json")])
      && (api_method == "POST" && BodyJson(json) == "" && |Bucket(groups, 2)| > 0 ==>
            cfg.data == Encoded(ToObject(Bucket(groups, 2)))
            && cfg.headers == headers["Content-Type" := Str("application/x-www-form-urlencoded")])
      && (api_method == "POST" && BodyJson(json) == "" && |Bucket(groups, 2)| == 0 && |Bucket(groups, 1)| > 0 ==>
            cfg.data == Encoded(ToObject(Bucket(groups, 1)))
            && cfg.headers == headers["Content-Type" := Str("multipart/form-data")])
      && (api_method == "POST" && BodyJson(json) == "" && |Bucket(groups, 2)| == 0 && |Bucket(groups, 1)| == 0 ==>
            cfg.data == EmptyObject && cfg.headers == headers)
  {
    var b := BucketParams(groups);
    var body := "";
    if json.Some? && json.value != "" {
      body := json.value;
    }
    b := MergeGlobals(b, globals);
    cfg := BuildConfig(api_method, base_url + api_url, b, body);
  }
}
