/** The versioning engine as functions on a whole-database value: `updateApi`,
  * `addApi` and `deleteApi` (controller/apis/index.ts) write the ledger and the
  * four versioned aspects of an api; `rollback` (controller/projects/index.ts)
  * undoes one ledger entry. One counter `next` stands for every auto-increment
  * id and for `createdAt`; each handler runs to completion with no crash point. */
module Versioning {
  import opened Wrappers
  import opened Text
  import opened VersionType
  import opened AspectStore
  import opened ApiTable
  import opened Ledger
  import opened RequestParams

  /** The payload of an `api_responses` row. */
  datatype Response = Response(http_status: int, response_name: string, response_body: string)

  /** The payload of a `request_params` row. */
  datatype Param = Param(param_class: int, param_name: string, param_type: int, param_desc: string)

  /** The tables the engine touches, and the counter. The `request_JSON` payload
    * is `JSON_body`; its version column is spelled `verion_id` in the table type. */
  datatype Db = Db(
    versions: seq<VersionRow>, apis: seq<ApiRow>, backups: seq<BackupRow>,
    responses: seq<Row<Response>>, params: seq<Row<Param>>, bodies: seq<Row<string>>,
    next: nat)

  /** The HTTP status, `result_code` and `result` of a handler's JSON reply. */
  datatype Reply = Reply(http_status: nat, result_code: nat, result: Option<nat>)

  /** The body of `updateApi`; `user_id` is the caller's, from the session. */
  datatype UpdateReq = UpdateReq(
    api_id: nat, project_id: nat, user_id: nat,
    dictionary_id: Option<nat>, basic_info: Option<BasicInfo>,
    api_request_params: Option<seq<ParamGroup>>, api_request_JSON: Option<string>,
    api_responses: Option<seq<Response>>)

  /** The body of `addApi`: the columns of the new `apis` row. */
  datatype AddReq = AddReq(project_id: nat, user_id: nat, dictionary_id: nat, info: BasicInfo, api_creator_id: int)

  function EmptyDb(): Db {
    Db([], [], [], [], [], [], 0)
  }

  /** What every handler keeps: ledger rows in creation order, every id and
    * version tag issued before `next`, `api_id` unique, and the body table's
    * shape (active rows untagged, at most one per api). */
  ghost predicate Invariant(db: Db) {
    && Chronological(db.versions)
    && (forall i :: 0 <= i < |db.versions| ==> db.versions[i].version_id < db.next && db.versions[i].createdAt < db.next)
    && UniqueIds(db.apis)
    && (forall i :: 0 <= i < |db.apis| ==> db.apis[i].api_id < db.next)
    && (forall i :: 0 <= i < |db.backups| && db.backups[i].saved.version_id.Some? ==> db.backups[i].saved.version_id.value < db.next)
    && TagsBelow(db.responses, db.next) && TagsBelow(db.params, db.next) && TagsBelow(db.bodies, db.next)
    && ActiveUntagged(db.bodies) && AtMostOneActive(db.bodies)
  }

  /* ---------- updateApi ---------- */

  /** `dictionary_id` in a boolean context: absent and 0 are falsy. */
  predicate DictionaryTruthy(req: UpdateReq) {
    req.dictionary_id.Some? && req.dictionary_id.value != 0
  }

  /** `api_request_JSON` in a boolean context: absent and "" are falsy. */
  predicate BodySupplied(req: UpdateReq) {
    req.api_request_JSON.Some? && req.api_request_JSON.value != ""
  }

  /** The early exit: none of the five payloads is truthy (objects and arrays
    * always are). */
  predicate NothingToUpdate(req: UpdateReq) {
    !DictionaryTruthy(req) && req.basic_info.None? && req.api_request_params.None?
    && !BodySupplied(req) && req.api_responses.None?
  }

  /** A truthy `dictionary_id` different from the stored one: a folder move. */
  predicate MovesFolder(req: UpdateReq, stored: ApiRow) {
    DictionaryTruthy(req) && req.dictionary_id.value != stored.dictionary_id
  }

  /** The codes of the supplied aspects, in the fixed order 0, 1, 2, 3. */
  function AspectCodes(req: UpdateReq): (r: seq<char>)
    ensures '0' in r <==> req.basic_info.Some?
    ensures '1' in r <==> req.api_responses.Some?
    ensures '2' in r <==> req.api_request_params.Some?
    ensures '3' in r <==> BodySupplied(req)
    ensures ',' !in r && '4' !in r && '5' !in r
  {
    var c0: seq<char> := if req.basic_info.Some? then ['0'] else [];
    var c1: seq<char> := if req.api_responses.Some? then ['1'] else [];
    var c2: seq<char> := if req.api_request_params.Some? then ['2'] else [];
    var c3: seq<char> := if BodySupplied(req) then ['3'] else [];
    assert forall x :: x in c0 + c1 + c2 + c3 <==> x in c0 || x in c1 || x in c2 || x in c3;
    c0 + c1 + c2 + c3
  }

  /** `version_type += code` when the aspect is supplied. */
  function AddCode(supplied: bool, code: string, t: string): string {
    if supplied then t + code else t
  }

  /** The `version_type` text accumulated by the aspect steps: "k," per supplied aspect. */
  function TypeText(req: UpdateReq): string {
    AddCode(BodySupplied(req), "3,",
      AddCode(req.api_request_params.Some?, "2,",
        AddCode(req.api_responses.Some?, "1,",
          AddCode(req.basic_info.Some?, "0,", ""))))
  }

  /** The closing `version_type`: the accumulated text without its last comma
    * (`VersioningProofs.TypeIsJoinedCodes` shows it is the codes joined by commas). */
  function VersionTypeOf(req: UpdateReq): string {
    DropLast(TypeText(req))
  }

  /** The row `updateApi` inserts for one entry of a parameter group. */
  function ParamOf(kind: int, e: ParamEntry): Param {
    Param(kind, e.param_name, e.param_type, e.param_desc)
  }

  /** The entries of one group that are inserted, in order: those with a non-empty name. */
  function KeptOf(kind: int, entries: seq<ParamEntry>): (r: seq<Param>)
    ensures |r| <= |entries|
    ensures forall i :: 0 <= i < |r| ==> r[i].param_name != "" && r[i].param_class == kind
  {
    if |entries| == 0 then []
    else
      var e := entries[|entries| - 1];
      KeptOf(kind, entries[..|entries| - 1]) + (if e.param_name != "" then [ParamOf(kind, e)] else [])
  }

  /** Every group's kept entries, groups in order. */
  function KeptParams(groups: seq<ParamGroup>): (r: seq<Param>)
    ensures forall i :: 0 <= i < |r| ==> r[i].param_name != ""
  {
    if |groups| == 0 then []
    else
      var g := groups[|groups| - 1];
      KeptParams(groups[..|groups| - 1]) + KeptOf(g.kind, g.params_list)
  }

  /** The response names, each followed by "、". */
  function ResponseNames(items: seq<Response>): string {
    if |items| == 0 then "" else ResponseNames(items[..|items| - 1]) + items[|items| - 1].response_name + "、"
  }

  /** The kept parameter names, each followed by "、". */
  function ParamNames(kept: seq<Param>): string {
    if |kept| == 0 then "" else ParamNames(kept[..|kept| - 1]) + kept[|kept| - 1].param_name + "、"
  }

  function BasicMsg(api: nat): string {
    "更新了接口id为：" + NatToString(api) + " 的基本信息；"
  }

  function ResponsesHead(api: nat): string {
    "更新了接口：" + NatToString(api) + " 的返回响应："
  }

  function ParamsHead(api: nat): string {
    "更新了接口id为：" + NatToString(api) + " 的请求参数："
  }

  function BodyMsg(api: nat): string {
    "更新了接口：" + NatToString(api) + " 的bodyJSON；"
  }

  /** The basic-info clause of `version_msg`, appended to `msg`. */
  function BasicPiece(req: UpdateReq, msg: string): string {
    if req.basic_info.Some? then msg + BasicMsg(req.api_id) else msg
  }

  /** The responses clause: each name followed by "、", then the last character
    * (the final "、", or the colon of an empty list) replaced by "；". */
  function ResponsesPiece(req: UpdateReq, msg: string): string {
    if req.api_responses.Some?
    then DropLast(msg + ResponsesHead(req.api_id) + ResponseNames(req.api_responses.value)) + "；"
    else msg
  }

  /** The params clause, built like the responses clause from the kept entries. */
  function ParamsPiece(req: UpdateReq, msg: string): string {
    if req.api_request_params.Some?
    then DropLast(msg + ParamsHead(req.api_id) + ParamNames(KeptParams(req.api_request_params.value))) + "；"
    else msg
  }

  /** The body clause. */
  function BodyPiece(req: UpdateReq, msg: string): string {
    if BodySupplied(req) then msg + BodyMsg(req.api_id) else msg
  }

  /** The `version_msg` text accumulated by the aspect steps: one clause per
    * supplied aspect, in the order basic info, responses, params, body. */
  function AspectsMsg(req: UpdateReq): string {
    BodyPiece(req, ParamsPiece(req, ResponsesPiece(req, BasicPiece(req, ""))))
  }

  /** The closing `version_msg`: the accumulated text with its last character
    * replaced by "。". */
  function VersionMsg(req: UpdateReq): string {
    DropLast(AspectsMsg(req)) + "。"
  }

  /** `INSERT INTO api_versions`: a ledger row created now, under id `next`. */
  function OpenVersion(db: Db, project: nat, user: nat, msg: string, t: string): (r: Db)
    ensures |r.versions| == |db.versions| + 1 && r.versions[..|db.versions|] == db.versions
    ensures r.versions[|db.versions|].version_id == db.next < r.next
  {
    db.(versions := db.versions + [VersionRow(db.next, project, user, msg, t, db.next)], next := db.next + 1)
  }

  /** The basic-info step: back up the pre-edit row under `v`, then overwrite
    * and re-tag it. */
  function EditBasic(db: Db, source: ApiRow, info: BasicInfo, v: nat): Db {
    db.(backups := db.backups + [BackupRow(db.next, source.(version_id := Some(v)))],
        apis := ApplyBasicInfo(db.apis, source.api_id, info, v),
        next := db.next + 1)
  }

  /** The responses step: retire the active rows under `v`, insert the items under `v`. */
  function EditResponses(db: Db, api: nat, items: seq<Response>, v: nat): Db {
    db.(responses := SoftDeleteActive(db.responses, api, v) + NewRows(db.next, api, Some(v), items),
        next := db.next + |items|)
  }

  /** The params step: retire the active rows under `v`, insert the kept entries under `v`. */
  function EditParams(db: Db, api: nat, groups: seq<ParamGroup>, v: nat): Db {
    var kept := KeptParams(groups);
    db.(params := SoftDeleteActive(db.params, api, v) + NewRows(db.next, api, Some(v), kept),
        next := db.next + |kept|)
  }

  /** The body step: retire the active row under `v`, insert the cleaned JSON
    * with no version id. */
  function EditBody(db: Db, api: nat, json: string, v: nat): Db {
    db.(bodies := SoftDeleteActive(db.bodies, api, v) + NewRows(db.next, api, None, [StripNewlinesAndTabs(json)]),
        next := db.next + 1)
  }

  /** The four aspect steps of `updateApi` under version `v`, each run only
    * when its payload is supplied, in the order basic info, responses, params, body. */
  function EditAspects(db: Db, req: UpdateReq, source: ApiRow, v: nat): Db {
    var d1 := if req.basic_info.Some? then EditBasic(db, source, req.basic_info.value, v) else db;
    var d2 := if req.api_responses.Some? then EditResponses(d1, req.api_id, req.api_responses.value, v) else d1;
    var d3 := if req.api_request_params.Some? then EditParams(d2, req.api_id, req.api_request_params.value, v) else d2;
    if BodySupplied(req) then EditBody(d3, req.api_id, req.api_request_JSON.value, v) else d3
  }

  /** The versioned edit of `updateApi`, once the api is found and no folder move
    * applies: open a version, run the aspect steps, close the version. */
  function EditSpec(db: Db, req: UpdateReq, source: ApiRow): (r: Db)
    ensures |r.versions| == |db.versions| + 1 && db.next < r.next
  {
    var d := EditAspects(OpenVersion(db, req.project_id, req.user_id, "", ""), req, source, db.next);
    d.(versions := CloseVersion(d.versions, db.next, VersionMsg(req), VersionTypeOf(req)))
  }

  /** `updateApi`: the new database and the reply. A missing api makes the
    * destructuring of the first lookup throw, hence status 500. */
  function UpdateSpec(db: Db, req: UpdateReq): (r: (Db, Reply))
    ensures r.1.http_status == 500 <==> !NothingToUpdate(req) && FindApi(db.apis, req.api_id).None?
    ensures r.1.result_code == 1 ==> r.0 == db
  {
    if NothingToUpdate(req) then (db, Reply(200, 1, None))
    else match FindApi(db.apis, req.api_id)
      case None => (db, Reply(500, 1, None))
      case Some(source) =>
        if MovesFolder(req, source) then
          (db.(apis := SetDictionary(db.apis, req.api_id, req.dictionary_id.value)), Reply(200, 0, Some(req.api_id)))
        else
          (EditSpec(db, req, source), Reply(200, 0, Some(req.api_id)))
  }

  /* ---------- addApi and deleteApi ---------- */

  /** `addApi`: a version of type "4", then the new api row tagged with it. */
  function AddSpec(db: Db, req: AddReq): (r: (Db, Reply))
    ensures r.1.result.Some? && db.next < r.1.result.value < r.0.next
    ensures |r.0.apis| == |db.apis| + 1 && r.0.apis[|db.apis|].api_id == r.1.result.value
  {
    var v := db.next;
    var id := db.next + 1;
    (db.(versions := db.versions + [VersionRow(v, req.project_id, req.user_id, "新增了接口。", "4", v)],
         apis := db.apis + [ApiRow(id, req.project_id, req.dictionary_id, req.info, req.api_creator_id, Some(v), false)],
         next := db.next + 2),
     Reply(200, 0, Some(id)))
  }

  function DeleteMsg(name: string, api: nat): string {
    "删除了接口：" + name + " ，接口id为：" + NatToString(api) + " 。"
  }

  /** `deleteApi`: a version of type "5", then the soft delete of the api row.
    * The aspect tables are not touched. */
  function DeleteSpec(db: Db, api: nat, project: nat, user: nat): (r: (Db, Reply))
    ensures r.1.http_status == 500 <==> FindApi(db.apis, api).None?
    ensures r.1.http_status == 500 ==> r.0 == db
  {
    match FindApi(db.apis, api)
    case None => (db, Reply(500, 1, None))
    case Some(row) =>
      var v := db.next;
      (db.(versions := db.versions + [VersionRow(v, project, user, DeleteMsg(row.info.api_name, api), "5", v)],
           apis := MarkDeleted(db.apis, api, v),
           next := db.next + 1),
       Reply(200, 0, None))
  }

  /* ---------- rollback ---------- */

  /** The basic-info step of `rollback`: when a backup carries the version,
    * write its columns back onto its api under the previous "0" version, then
    * delete the version's backups. */
  function RollbackBasic(db: Db, v: nat, project: nat): (r: Db)
    ensures r.versions == db.versions && r.next == db.next
    ensures r.responses == db.responses && r.params == db.params && r.bodies == db.bodies
  {
    var target := BackupsOf(db.backups, v);
    if |target| > 0 then
      db.(apis := RestoreBasic(db.apis, target[0].saved, PreviousId(db.versions, project, '0')),
          backups := DeleteBackups(db.backups, v))
    else db
  }

  /** The responses step of `rollback`. */
  function RevertResponses(db: Db, v: nat, project: nat): Db {
    db.(responses := RevertAspect(db.responses, v, PreviousId(db.versions, project, '1')))
  }

  /** The params step of `rollback`. */
  function RevertParams(db: Db, v: nat, project: nat): Db {
    db.(params := RevertAspect(db.params, v, PreviousId(db.versions, project, '2')))
  }

  /** The body step of `rollback`. */
  function RevertBody(db: Db, v: nat, project: nat): Db {
    db.(bodies := RevertAspect(db.bodies, v, PreviousId(db.versions, project, '3')))
  }

  /** The reversal steps of `rollback` for the aspects listed in `codes`, in
    * the order 0, 1, 2, 3. Each previous version is computed while `v` is
    * still in the ledger. */
  function RevertListed(db: Db, v: nat, project: nat, codes: seq<string>): (r: Db)
    ensures r.versions == db.versions && r.next == db.next
  {
    var d1 := if "0" in codes then RollbackBasic(db, v, project) else db;
    var d2 := if "1" in codes then RevertResponses(d1, v, project) else d1;
    var d3 := if "2" in codes then RevertParams(d2, v, project) else d2;
    if "3" in codes then RevertBody(d3, v, project) else d3
  }

  /** `rollback` of version `v` in project `project`. A missing version makes
    * the lookup throw (500); a version of an add or a delete is refused (200,
    * result_code 1); otherwise the listed aspects are reverted and the ledger
    * row deleted. */
  function RollbackSpec(db: Db, v: nat, project: nat): (r: (Db, Reply))
    ensures r.1.http_status == 500 <==> FindVersion(db.versions, v).None?
    ensures r.1.result_code == 1 ==> r.0 == db
  {
    match FindVersion(db.versions, v)
    case None => (db, Reply(500, 1, None))
    case Some(row) =>
      var codes := Split(row.version_type);
      if "4" in codes || "5" in codes then (db, Reply(200, 1, None))
      else
        var d := RevertListed(db, v, project, codes);
        (d.(versions := RemoveVersion(d.versions, v)), Reply(200, 0, None))
  }

  lemma ResponseNamesSnoc(items: seq<Response>, x: Response)
    ensures ResponseNames(items + [x]) == ResponseNames(items) + x.response_name + "、"
  {
    assert (items + [x])[..|items|] == items;
  }

  lemma ParamNamesSnoc(kept: seq<Param>, x: Param)
    ensures ParamNames(kept + [x]) == ParamNames(kept) + x.param_name + "、"
  {
    assert (kept + [x])[..|kept|] == kept;
  }

  lemma KeptOfStep(kind: int, entries: seq<ParamEntry>, j: nat)
    requires j < |entries|
    ensures KeptOf(kind, entries[..j + 1])
      == KeptOf(kind, entries[..j]) + (if entries[j].param_name != "" then [ParamOf(kind, entries[j])] else [])
  {
    assert entries[..j + 1][..j] == entries[..j];
  }

  lemma KeptParamsStep(groups: seq<ParamGroup>, g: nat)
    requires g < |groups|
    ensures KeptParams(groups[..g + 1]) == KeptParams(groups[..g]) + KeptOf(groups[g].kind, groups[g].params_list)
  {
    assert groups[..g + 1][..g] == groups[..g];
  }

  /** Every entry with a non-empty name is inserted, under its group's class. */
  lemma {:induction false} KeptParamsComplete(groups: seq<ParamGroup>, g: nat, j: nat)
    requires g < |groups| && j < |groups[g].params_list| && groups[g].params_list[j].param_name != ""
    ensures ParamOf(groups[g].kind, groups[g].params_list[j]) in KeptParams(groups)
  {
    var pre := groups[..|groups| - 1];
    if g < |groups| - 1 {
      KeptParamsComplete(pre, g, j);
    } else {
      KeptOfComplete(groups[g].kind, groups[g].params_list, j);
    }
  }

  /** Within one group, every entry with a non-empty name is kept. */
  lemma {:induction false} KeptOfComplete(kind: int, entries: seq<ParamEntry>, j: nat)
    requires j < |entries| && entries[j].param_name != ""
    ensures ParamOf(kind, entries[j]) in KeptOf(kind, entries)
  {
    var pre := entries[..|entries| - 1];
    if j < |entries| - 1 {
      KeptOfComplete(kind, pre, j);
    }
  }

}
