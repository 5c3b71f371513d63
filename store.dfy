/** The database as the four versioning handlers change it, statement by
  * statement. Each method runs its handler's SQL statements in order on the
  * tables and is proved to end in the state, and give the reply, that the
  * matching function of `Versioning` describes. */
module Store {
  import opened Wrappers
  import opened Text
  import opened VersionType
  import opened AspectStore
  import opened ApiTable
  import opened Ledger
  import opened RequestParams
  import opened Versioning
  import VersioningProofs

  class ApiStore {
    var versions: seq<VersionRow>
    var apis: seq<ApiRow>
    var backups: seq<BackupRow>
    var responses: seq<Row<Response>>
    var params: seq<Row<Param>>
    var bodies: seq<Row<string>>
    var next: nat

    function State(): Db
      reads this
    {
      Db(versions, apis, backups, responses, params, bodies, next)
    }

    ghost predicate Valid()
      reads this
    {
      Invariant(State())
    }

    /** An empty database. */
    constructor ()
      ensures State() == EmptyDb() && Valid()
    {
      versions, apis, backups := [], [], [];
      responses, params, bodies := [], [], [];
      next := 0;
    }

    /** One response item: its message piece and its `INSERT`, extending the
      * rows and the message built so far. */
    method InsertResponse(api: nat, item: Response, v: nat, msg0: string,
                          ghost base: seq<Row<Response>>, ghost start: nat, ghost head: string, ghost done: seq<Response>)
      returns (msg: string)
      requires responses == base + NewRows(start, api, Some(v), done)
      requires next == start + |done|
      requires msg0 == head + ResponseNames(done)
      modifies this
      ensures responses == base + NewRows(start, api, Some(v), done + [item])
      ensures next == start + |done + [item]|
      ensures msg == head + ResponseNames(done + [item])
      ensures versions == old(versions) && apis == old(apis) && backups == old(backups)
      ensures params == old(params) && bodies == old(bodies)
    {
      NewRowsSnoc(start, api, Some(v), done, item);
      ResponseNamesSnoc(done, item);
      msg := msg0 + item.response_name + "、";
      responses := responses + [Row(next, api, item, Some(v), false)];
      next := next + 1;
    }

    /** `api_responses.forEach`: one message piece and one `INSERT` per item, in order. */
    method InsertResponses(api: nat, items: seq<Response>, v: nat, msg0: string) returns (msg: string)
      modifies this
      ensures responses == old(responses) + NewRows(old(next), api, Some(v), items)
      ensures next == old(next) + |items|
      ensures msg == msg0 + ResponseNames(items)
      ensures versions == old(versions) && apis == old(apis) && backups == old(backups)
      ensures params == old(params) && bodies == old(bodies)
    {
      msg := msg0;
      var i := 0;
      while i < |items|
        invariant i <= |items|
        invariant responses == old(responses) + NewRows(old(next), api, Some(v), items[..i])
        invariant next == old(next) + i
        invariant msg == msg0 + ResponseNames(items[..i])
        invariant versions == old(versions) && apis == old(apis) && backups == old(backups)
        invariant params == old(params) && bodies == old(bodies)
      {
        msg := InsertResponse(api, items[i], v, msg, old(responses), old(next), msg0, items[..i]);
        assert items[..i + 1] == items[..i] + [items[i]];
        i := i + 1;
      }
      assert items[..i] == items;
    }

    /** One kept entry: its message piece and its `INSERT`, extending the rows
      * and the message built so far. */
    method InsertParam(api: nat, row: Param, v: nat, msg0: string,
                       ghost base: seq<Row<Param>>, ghost start: nat, ghost head: string, ghost done: seq<Param>)
      returns (msg: string)
      requires params == base + NewRows(start, api, Some(v), done)
      requires next == start + |done|
      requires msg0 == head + ParamNames(done)
      modifies this
      ensures params == base + NewRows(start, api, Some(v), done + [row])
      ensures next == start + |done + [row]|
      ensures msg == head + ParamNames(done + [row])
      ensures versions == old(versions) && apis == old(apis) && backups == old(backups)
      ensures responses == old(responses) && bodies == old(bodies)
    {
      NewRowsSnoc(start, api, Some(v), done, row);
      ParamNamesSnoc(done, row);
      msg := msg0 + row.param_name + "、";
      params := params + [Row(next, api, row, Some(v), false)];
      next := next + 1;
    }

    /** `params_list.forEach` of one group: an entry with a non-empty name gets
      * a message piece and an `INSERT` under the group's class; the others are
      * skipped. */
    method InsertGroup(api: nat, group: ParamGroup, v: nat, msg0: string,
                       ghost base: seq<Row<Param>>, ghost start: nat, ghost head: string, ghost before: seq<Param>)
      returns (msg: string)
      requires params == base + NewRows(start, api, Some(v), before)
      requires next == start + |before|
      requires msg0 == head + ParamNames(before)
      modifies this
      ensures params == base + NewRows(start, api, Some(v), before + KeptOf(group.kind, group.params_list))
      ensures next == start + |before + KeptOf(group.kind, group.params_list)|
      ensures msg == head + ParamNames(before + KeptOf(group.kind, group.params_list))
      ensures versions == old(versions) && apis == old(apis) && backups == old(backups)
      ensures responses == old(responses) && bodies == old(bodies)
    {
      msg := msg0;
      var entries := group.params_list;
      ghost var done: seq<Param> := [];
      assert before + done == before;
      var j := 0;
      while j < |entries|
        invariant j <= |entries|
        invariant done == KeptOf(group.kind, entries[..j])
        invariant params == base + NewRows(start, api, Some(v), before + done)
        invariant next == start + |before + done|
        invariant msg == head + ParamNames(before + done)
        invariant versions == old(versions) && apis == old(apis) && backups == old(backups)
        invariant responses == old(responses) && bodies == old(bodies)
      {
        var entry := entries[j];
        KeptOfStep(group.kind, entries, j);
        if entry.param_name != "" {
          var row := ParamOf(group.kind, entry);
          msg := InsertParam(api, row, v, msg, base, start, head, before + done);
          assert before + done + [row] == before + (done + [row]);
          done := done + [row];
        }
        j := j + 1;
      }
      assert entries[..j] == entries;
    }

    /** `api_request_params.forEach` over the groups, in order. */
    method InsertParams(api: nat, groups: seq<ParamGroup>, v: nat, msg0: string) returns (msg: string)
      modifies this
      ensures params == old(params) + NewRows(old(next), api, Some(v), KeptParams(groups))
      ensures next == old(next) + |KeptParams(groups)|
      ensures msg == msg0 + ParamNames(KeptParams(groups))
      ensures versions == old(versions) && apis == old(apis) && backups == old(backups)
      ensures responses == old(responses) && bodies == old(bodies)
    {
      msg := msg0;
      ghost var done: seq<Param> := [];
      var g := 0;
      while g < |groups|
        invariant g <= |groups|
        invariant done == KeptParams(groups[..g])
        invariant params == old(params) + NewRows(old(next), api, Some(v), done)
        invariant next == old(next) + |done|
        invariant msg == msg0 + ParamNames(done)
        invariant versions == old(versions) && apis == old(apis) && backups == old(backups)
        invariant responses == old(responses) && bodies == old(bodies)
      {
        KeptParamsStep(groups, g);
        msg := InsertGroup(api, groups[g], v, msg, old(params), old(next), msg0, done);
        done := done + KeptOf(groups[g].kind, groups[g].params_list);
        g := g + 1;
      }
      assert groups[..g] == groups;
    }

    /** Step 1 of `updateApi`, when `basic_info` is supplied: back up the row,
      * overwrite it, add its message clause and type code. */
    method BasicStep(req: UpdateReq, source: ApiRow, v: nat, msg0: string, type0: string) returns (msg: string, vtype: string)
      requires source.api_id == req.api_id
      modifies this
      ensures State() == if req.basic_info.Some? then EditBasic(old(State()), source, req.basic_info.value, v) else old(State())
      ensures msg == BasicPiece(req, msg0) && vtype == AddCode(req.basic_info.Some?, "0,", type0)
    {
      msg, vtype := msg0, type0;
      if req.basic_info.Some? {
        backups := backups + [BackupRow(next, source.(version_id := Some(v)))];
        next := next + 1;
        apis := ApplyBasicInfo(apis, source.api_id, req.basic_info.value, v);
        msg := msg + BasicMsg(source.api_id);
        vtype := vtype + "0,";
      }
    }

    /** Step 2 of `updateApi`, when `api_responses` is supplied: retire the
      * active responses, insert the new ones. */
    method ResponsesStep(req: UpdateReq, v: nat, msg0: string, type0: string) returns (msg: string, vtype: string)
      modifies this
      ensures State() == if req.api_responses.Some? then EditResponses(old(State()), req.api_id, req.api_responses.value, v) else old(State())
      ensures msg == ResponsesPiece(req, msg0) && vtype == AddCode(req.api_responses.Some?, "1,", type0)
    {
      msg, vtype := msg0, type0;
      if req.api_responses.Some? {
        msg := msg + ResponsesHead(req.api_id);
        responses := SoftDeleteActive(responses, req.api_id, v);
        msg := InsertResponses(req.api_id, req.api_responses.value, v, msg);
        msg := DropLast(msg) + "；";
        vtype := vtype + "1,";
      }
    }

    /** Step 3 of `updateApi`, when `api_request_params` is supplied: retire the
      * active params, insert the kept entries. */
    method ParamsStep(req: UpdateReq, v: nat, msg0: string, type0: string) returns (msg: string, vtype: string)
      modifies this
      ensures State() == if req.api_request_params.Some? then EditParams(old(State()), req.api_id, req.api_request_params.value, v) else old(State())
      ensures msg == ParamsPiece(req, msg0) && vtype == AddCode(req.api_request_params.Some?, "2,", type0)
    {
      msg, vtype := msg0, type0;
      if req.api_request_params.Some? {
        msg := msg + ParamsHead(req.api_id);
        params := SoftDeleteActive(params, req.api_id, v);
        msg := InsertParams(req.api_id, req.api_request_params.value, v, msg);
        msg := DropLast(msg) + "；";
        vtype := vtype + "2,";
      }
    }

    /** Step 4 of `updateApi`, when a non-empty `api_request_JSON` is supplied:
      * retire the active body, insert the cleaned JSON untagged. */
    method BodyStep(req: UpdateReq, v: nat, msg0: string, type0: string) returns (msg: string, vtype: string)
      modifies this
      ensures State() == if BodySupplied(req) then EditBody(old(State()), req.api_id, req.api_request_JSON.value, v) else old(State())
      ensures msg == BodyPiece(req, msg0) && vtype == AddCode(BodySupplied(req), "3,", type0)
    {
      msg, vtype := msg0, type0;
      if BodySupplied(req) {
        msg := msg + BodyMsg(req.api_id);
        bodies := SoftDeleteActive(bodies, req.api_id, v);
        var jsonBody := StripNewlinesAndTabs(req.api_request_JSON.value);
        bodies := bodies + [Row(next, req.api_id, jsonBody, None, false)];
        next := next + 1;
        vtype := vtype + "3,";
      }
    }

    /** Step 5 of `updateApi`: write the message and the type onto the version. */
    method CloseStep(v: nat, msg: string, vtype: string)
      modifies this
      ensures State() == old(State()).(versions := CloseVersion(old(versions), v, msg, vtype))
    {
      versions := CloseVersion(versions, v, msg, vtype);
    }

    /** Steps 1 to 4 of `updateApi` under version `v`; returns the accumulated
      * message and type text. */
    method AspectSteps(req: UpdateReq, source: ApiRow, v: nat) returns (msg: string, vtype: string)
      requires source.api_id == req.api_id
      modifies this
      ensures State() == EditAspects(old(State()), req, source, v)
      ensures msg == AspectsMsg(req) && vtype == TypeText(req)
    {
      msg, vtype := BasicStep(req, source, v, "", "");
      msg, vtype := ResponsesStep(req, v, msg, vtype);
      msg, vtype := ParamsStep(req, v, msg, vtype);
      msg, vtype := BodyStep(req, v, msg, vtype);
    }

    /** Step 0 of `updateApi`: open an empty version row under the next id. */
    method OpenStep(project: nat, user: nat) returns (v: nat)
      modifies this
      ensures v == old(next)
      ensures State() == OpenVersion(old(State()), project, user, "", "")
    {
      v := next;
      versions := versions + [VersionRow(v, project, user, "", "", v)];
      next := next + 1;
    }

    /** `updateApi`. */
    method UpdateApi(req: UpdateReq) returns (reply: Reply)
      requires Valid()
      modifies this
      ensures Valid()
      ensures (State(), reply) == UpdateSpec(old(State()), req)
    {
      ghost var db := State();
      if NothingToUpdate(req) {
        VersioningProofs.UpdateKeepsInvariant(db, req);
        return Reply(200, 1, None);
      }
      var found := FindApi(apis, req.api_id);
      if found.None? {
        VersioningProofs.UpdateKeepsInvariant(db, req);
        return Reply(500, 1, None);
      }
      var source := found.value;
      if MovesFolder(req, source) {
        apis := SetDictionary(apis, req.api_id, req.dictionary_id.value);
        VersioningProofs.UpdateKeepsInvariant(db, req);
        return Reply(200, 0, Some(req.api_id));
      }
      var v := OpenStep(req.project_id, req.user_id);
      var msg, vtype := AspectSteps(req, source, v);
      msg := DropLast(msg) + "。";
      vtype := DropLast(vtype);
      CloseStep(v, msg, vtype);
      VersioningProofs.UpdateKeepsInvariant(db, req);
      return Reply(200, 0, Some(req.api_id));
    }

    /** `addApi`. */
    method AddApi(req: AddReq) returns (reply: Reply)
      requires Valid()
      modifies this
      ensures Valid()
      ensures (State(), reply) == AddSpec(old(State()), req)
    {
      VersioningProofs.AddKeepsInvariant(State(), req);
      var v := next;
      versions := versions + [VersionRow(v, req.project_id, req.user_id, "新增了接口。", "4", v)];
      next := next + 1;
      var id := next;
      apis := apis + [ApiRow(id, req.project_id, req.dictionary_id, req.info, req.api_creator_id, Some(v), false)];
      next := next + 1;
      return Reply(200, 0, Some(id));
    }

    /** `deleteApi`. */
    method DeleteApi(api: nat, project: nat, user: nat) returns (reply: Reply)
      requires Valid()
      modifies this
      ensures Valid()
      ensures (State(), reply) == DeleteSpec(old(State()), api, project, user)
    {
      VersioningProofs.DeleteKeepsInvariant(State(), api, project, user);
      var found := FindApi(apis, api);
      if found.None? {
        return Reply(500, 1, None);
      }
      var v := next;
      versions := versions + [VersionRow(v, project, user, DeleteMsg(found.value.info.api_name, api), "5", v)];
      next := next + 1;
      apis := MarkDeleted(apis, api, v);
      return Reply(200, 0, None);
    }

    /** Step 1 of `rollback`: restore the api from the version's backup, if any. */
    method RollbackBasicStep(v: nat, project: nat)
      modifies this
      ensures State() == RollbackBasic(old(State()), v, project)
    {
      var target := BackupsOf(backups, v);
      if |target| > 0 {
        var prev := PreviousId(versions, project, '0');
        apis := RestoreBasic(apis, target[0].saved, prev);
        backups := DeleteBackups(backups, v);
      }
    }

    /** Step 2 of `rollback`. */
    method RevertResponsesStep(v: nat, project: nat)
      modifies this
      ensures State() == RevertResponses(old(State()), v, project)
    {
      var target := SelectActiveUnder(responses, v);
      if |target| > 0 {
        responses := DeleteActiveUnder(responses, v);
        var prev := PreviousId(versions, project, '1');
        responses := Reactivate(responses, v, prev);
      }
      assert responses == RevertAspect(old(responses), v, PreviousId(versions, project, '1'));
    }

    /** Step 3 of `rollback`. */
    method RevertParamsStep(v: nat, project: nat)
      modifies this
      ensures State() == RevertParams(old(State()), v, project)
    {
      var target := SelectActiveUnder(params, v);
      if |target| > 0 {
        params := DeleteActiveUnder(params, v);
        var prev := PreviousId(versions, project, '2');
        params := Reactivate(params, v, prev);
      }
      assert params == RevertAspect(old(params), v, PreviousId(versions, project, '2'));
    }

    /** Step 4 of `rollback`. */
    method RevertBodyStep(v: nat, project: nat)
      modifies this
      ensures State() == RevertBody(old(State()), v, project)
    {
      var target := SelectActiveUnder(bodies, v);
      if |target| > 0 {
        bodies := DeleteActiveUnder(bodies, v);
        var prev := PreviousId(versions, project, '3');
        bodies := Reactivate(bodies, v, prev);
      }
      assert bodies == RevertAspect(old(bodies), v, PreviousId(versions, project, '3'));
    }

    /** The reversal steps of `rollback` for the listed aspects, in order. */
    method RevertSteps(v: nat, project: nat, codes: seq<string>)
      modifies this
      ensures State() == RevertListed(old(State()), v, project, codes)
    {
      if "0" in codes {
        RollbackBasicStep(v, project);
      }
      if "1" in codes {
        RevertResponsesStep(v, project);
      }
      if "2" in codes {
        RevertParamsStep(v, project);
      }
      if "3" in codes {
        RevertBodyStep(v, project);
      }
    }

    /** `rollback`. */
    method Rollback(v: nat, project: nat) returns (reply: Reply)
      requires Valid()
      modifies this
      ensures Valid()
      ensures (State(), reply) == RollbackSpec(old(State()), v, project)
    {
      ghost var db := State();
      VersioningProofs.RollbackKeepsInvariant(db, v, project);
      var found := FindVersion(versions, v);
      if found.None? {
        return Reply(500, 1, None);
      }
      var codes := Split(found.value.version_type);
      if "4" in codes || "5" in codes {
        return Reply(200, 1, None);
      }
      RevertSteps(v, project, codes);
      versions := RemoveVersion(versions, v);
      return Reply(200, 0, None);
    }
  }
}
