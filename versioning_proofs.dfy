/** What the versioning engine keeps and what its undo gives back. */
module VersioningProofs {
  import opened Wrappers
  import opened Text
  import opened VersionType
  import opened AspectStore
  import opened ApiTable
  import opened Ledger
  import opened RequestParams
  import opened Versioning

  /* ---------- the invariant ---------- */

  lemma TagsBelowGrow<P>(rows: seq<Row<P>>, added: seq<Row<P>>, bound: nat, bound': nat)
    requires TagsBelow(rows, bound) && bound <= bound'
    requires forall i :: 0 <= i < |added| && added[i].version_id.Some? ==> added[i].version_id.value < bound'
    ensures TagsBelow(rows + added, bound')
  {
    forall x | x in rows + added && x.version_id.Some? ensures x.version_id.value < bound' {
      if x !in rows {
        var i :| 0 <= i < |added| && added[i] == x;
      }
    }
  }

  lemma OpenKeeps(db: Db, project: nat, user: nat, msg: string, t: string)
    requires Invariant(db)
    ensures Invariant(OpenVersion(db, project, user, msg, t))
  {
  }

  lemma EditBasicKeeps(db: Db, source: ApiRow, info: BasicInfo, v: nat)
    requires Invariant(db) && v < db.next
    ensures Invariant(EditBasic(db, source, info, v))
  {
  }

  lemma EditResponsesKeeps(db: Db, api: nat, items: seq<Response>, v: nat)
    requires Invariant(db) && v < db.next
    ensures Invariant(EditResponses(db, api, items, v))
  {
    TagsBelowRetire(db.responses, api, v, db.next);
    TagsBelowGrow(SoftDeleteActive(db.responses, api, v), NewRows(db.next, api, Some(v), items), db.next, db.next + |items|);
  }

  lemma EditParamsKeeps(db: Db, api: nat, groups: seq<ParamGroup>, v: nat)
    requires Invariant(db) && v < db.next
    ensures Invariant(EditParams(db, api, groups, v))
  {
    var kept := KeptParams(groups);
    TagsBelowRetire(db.params, api, v, db.next);
    TagsBelowGrow(SoftDeleteActive(db.params, api, v), NewRows(db.next, api, Some(v), kept), db.next, db.next + |kept|);
  }

  lemma EditBodyKeeps(db: Db, api: nat, json: string, v: nat)
    requires Invariant(db) && v < db.next
    ensures Invariant(EditBody(db, api, json, v))
  {
    var payload := StripNewlinesAndTabs(json);
    TagsBelowRetire(db.bodies, api, v, db.next);
    TagsBelowGrow(SoftDeleteActive(db.bodies, api, v), NewRows(db.next, api, None, [payload]), db.next, db.next + 1);
    ReplaceUntaggedKeepsShape(db.bodies, api, v, db.next, payload);
  }

  lemma CloseKeeps(db: Db, v: nat, msg: string, t: string)
    requires Invariant(db)
    ensures Invariant(db.(versions := CloseVersion(db.versions, v, msg, t)))
  {
  }

  lemma EditKeeps(db: Db, req: UpdateReq, source: ApiRow)
    requires Invariant(db)
    ensures Invariant(EditSpec(db, req, source))
  {
    var v := db.next;
    var d0 := OpenVersion(db, req.project_id, req.user_id, "", "");
    OpenKeeps(db, req.project_id, req.user_id, "", "");
    var d1 := if req.basic_info.Some? then EditBasic(d0, source, req.basic_info.value, v) else d0;
    if req.basic_info.Some? { EditBasicKeeps(d0, source, req.basic_info.value, v); }
    var d2 := if req.api_responses.Some? then EditResponses(d1, req.api_id, req.api_responses.value, v) else d1;
    if req.api_responses.Some? { EditResponsesKeeps(d1, req.api_id, req.api_responses.value, v); }
    var d3 := if req.api_request_params.Some? then EditParams(d2, req.api_id, req.api_request_params.value, v) else d2;
    if req.api_request_params.Some? { EditParamsKeeps(d2, req.api_id, req.api_request_params.value, v); }
    var d4 := if BodySupplied(req) then EditBody(d3, req.api_id, req.api_request_JSON.value, v) else d3;
    if BodySupplied(req) { EditBodyKeeps(d3, req.api_id, req.api_request_JSON.value, v); }
    assert d4 == EditAspects(d0, req, source, v);
    CloseKeeps(d4, v, VersionMsg(req), VersionTypeOf(req));
  }

  /** `updateApi` keeps the invariant. */
  lemma UpdateKeepsInvariant(db: Db, req: UpdateReq)
    requires Invariant(db)
    ensures Invariant(UpdateSpec(db, req).0)
  {
    if !NothingToUpdate(req) {
      match FindApi(db.apis, req.api_id)
      case None =>
      case Some(source) =>
        if MovesFolder(req, source) {
          FolderKeeps(db, req.api_id, req.dictionary_id.value);
        } else {
          EditKeeps(db, req, source);
        }
    }
  }

  /** Moving an api to another folder keeps the invariant. */
  lemma FolderKeeps(db: Db, api: nat, d: nat)
    requires Invariant(db)
    ensures Invariant(db.(apis := SetDictionary(db.apis, api, d)))
  {
    var a := SetDictionary(db.apis, api, d);
    assert forall i :: 0 <= i < |a| ==> a[i].api_id == db.apis[i].api_id;
  }

  /** `addApi` keeps the invariant; in particular the new `api_id` is fresh. */
  lemma AddKeepsInvariant(db: Db, req: AddReq)
    requires Invariant(db)
    ensures Invariant(AddSpec(db, req).0)
  {
  }

  /** `deleteApi` keeps the invariant. */
  lemma DeleteKeepsInvariant(db: Db, api: nat, project: nat, user: nat)
    requires Invariant(db)
    ensures Invariant(DeleteSpec(db, api, project, user).0)
  {
  }

  lemma PreviousBelow(vs: seq<VersionRow>, p: nat, k: char, bound: nat)
    requires forall i :: 0 <= i < |vs| ==> vs[i].version_id < bound
    ensures PreviousId(vs, p, k).Some? ==> PreviousId(vs, p, k).value < bound
  {
    if PreviousId(vs, p, k).Some? {
      PreviousIsListed(vs, p, k);
    }
  }

  lemma RollbackBasicKeeps(db: Db, v: nat, project: nat)
    requires Invariant(db)
    ensures Invariant(RollbackBasic(db, v, project))
  {
    var target := BackupsOf(db.backups, v);
    if |target| > 0 {
      var prev := PreviousId(db.versions, project, '0');
      var r := RollbackBasic(db, v, project);
      assert forall i :: 0 <= i < |r.apis| ==> r.apis[i].api_id == db.apis[i].api_id;
      var b := DeleteBackups(db.backups, v);
      forall i | 0 <= i < |b| && b[i].saved.version_id.Some? ensures b[i].saved.version_id.value < db.next {
        var j :| 0 <= j < |db.backups| && db.backups[j] == b[i];
      }
    }
  }

  lemma RevertResponsesKeeps(db: Db, v: nat, project: nat)
    requires Invariant(db)
    ensures Invariant(RevertResponses(db, v, project))
  {
    PreviousBelow(db.versions, project, '1', db.next);
    TagsBelowRevert(db.responses, v, PreviousId(db.versions, project, '1'), db.next);
  }

  lemma RevertParamsKeeps(db: Db, v: nat, project: nat)
    requires Invariant(db)
    ensures Invariant(RevertParams(db, v, project))
  {
    PreviousBelow(db.versions, project, '2', db.next);
    TagsBelowRevert(db.params, v, PreviousId(db.versions, project, '2'), db.next);
  }

  /** The body step of `rollback` never changes anything: body rows are
    * inserted without a version id, so none is ever active under a version. */
  lemma RevertBodyIsIdentity(db: Db, v: nat, project: nat)
    requires Invariant(db)
    ensures RevertBody(db, v, project) == db
  {
    UntaggedNeverReverted(db.bodies, v, PreviousId(db.versions, project, '3'));
  }

  lemma RemoveKeeps(db: Db, v: nat)
    requires Invariant(db)
    ensures Invariant(db.(versions := RemoveVersion(db.versions, v)))
  {
    RemoveChronological(db.versions, v);
  }

  lemma RevertListedKeeps(db: Db, v: nat, project: nat, codes: seq<string>)
    requires Invariant(db)
    ensures Invariant(RevertListed(db, v, project, codes))
    ensures RevertListed(db, v, project, codes).bodies == db.bodies
    ensures RevertListed(db, v, project, codes).versions == db.versions
  {
    var d1 := if "0" in codes then RollbackBasic(db, v, project) else db;
    assert Invariant(d1) && d1.bodies == db.bodies && d1.versions == db.versions by {
      if "0" in codes { RollbackBasicKeeps(db, v, project); }
    }
    var d2 := if "1" in codes then RevertResponses(d1, v, project) else d1;
    assert Invariant(d2) && d2.bodies == db.bodies && d2.versions == db.versions by {
      if "1" in codes { RevertResponsesKeeps(d1, v, project); }
    }
    var d3 := if "2" in codes then RevertParams(d2, v, project) else d2;
    assert Invariant(d3) && d3.bodies == db.bodies && d3.versions == db.versions by {
      if "2" in codes { RevertParamsKeeps(d2, v, project); }
    }
    assert RevertListed(db, v, project, codes) == if "3" in codes then RevertBody(d3, v, project) else d3;
    RevertBodyIsIdentity(d3, v, project);
  }

  /** `rollback` keeps the invariant and never changes the body table. */
  lemma RollbackKeepsInvariant(db: Db, v: nat, project: nat)
    requires Invariant(db)
    ensures Invariant(RollbackSpec(db, v, project).0)
    ensures RollbackSpec(db, v, project).0.bodies == db.bodies
  {
    match FindVersion(db.versions, v)
    case None =>
    case Some(row) =>
      var codes := Split(row.version_type);
      if !("4" in codes || "5" in codes) {
        RevertListedKeeps(db, v, project, codes);
        RemoveKeeps(RevertListed(db, v, project, codes), v);
      }
  }

  /* ---------- update, then roll back ---------- */

  /** The ledger row of an edit once `updateApi` has closed it. */
  function Closed(db: Db, req: UpdateReq): VersionRow {
    VersionRow(db.next, req.project_id, req.user_id, VersionMsg(req), VersionTypeOf(req), db.next)
  }

  /** The versioned edit appends exactly one ledger row, the closed one. */
  lemma EditVersions(db: Db, req: UpdateReq, source: ApiRow)
    requires IdsBelow(db.versions, db.next)
    ensures EditSpec(db, req, source).versions == db.versions + [Closed(db, req)]
  {
    var v := db.next;
    var row := VersionRow(v, req.project_id, req.user_id, "", "", v);
    var d0 := OpenVersion(db, req.project_id, req.user_id, "", "");
    assert d0.versions == db.versions + [row];
    AspectsFrame(d0, req, source, v);
    var d := EditAspects(d0, req, source, v);
    assert EditSpec(db, req, source).versions == CloseVersion(d.versions, v, VersionMsg(req), VersionTypeOf(req));
    CloseFresh(db.versions, row, VersionMsg(req), VersionTypeOf(req));
  }

  /** The versioned edit writes `apis` and `api_backup` only for a basic-info edit. */
  lemma EditApis(db: Db, req: UpdateReq, source: ApiRow)
    ensures var e := EditSpec(db, req, source);
      && e.apis == (if req.basic_info.Some? then ApplyBasicInfo(db.apis, source.api_id, req.basic_info.value, db.next) else db.apis)
      && e.backups == (if req.basic_info.Some? then db.backups + [BackupRow(db.next + 1, source.(version_id := Some(db.next)))] else db.backups)
  {
    var d0 := OpenVersion(db, req.project_id, req.user_id, "", "");
    var d := EditAspects(d0, req, source, db.next);
    assert d.apis == (if req.basic_info.Some? then ApplyBasicInfo(db.apis, source.api_id, req.basic_info.value, db.next) else db.apis)
        && d.backups == (if req.basic_info.Some? then db.backups + [BackupRow(db.next + 1, source.(version_id := Some(db.next)))] else db.backups) by {
      assert d0.apis == db.apis && d0.backups == db.backups && d0.next == db.next + 1;
      AspectsFrame(d0, req, source, db.next);
    }
    assert EditSpec(db, req, source).apis == d.apis && EditSpec(db, req, source).backups == d.backups;
  }

  /** The aspect steps leave the ledger alone; only the basic-info step writes
    * `apis` and `api_backup`. */
  lemma AspectsFrame(db: Db, req: UpdateReq, source: ApiRow, v: nat)
    ensures var e := EditAspects(db, req, source, v);
      && e.versions == db.versions
      && e.apis == (if req.basic_info.Some? then ApplyBasicInfo(db.apis, source.api_id, req.basic_info.value, v) else db.apis)
      && e.backups == (if req.basic_info.Some? then db.backups + [BackupRow(db.next, source.(version_id := Some(v)))] else db.backups)
  {
  }

  /** The responses table an edit leaves: untouched without responses,
    * otherwise the active rows retired under the new version and the items
    * inserted under it. */
  lemma EditResponsesFact(db: Db, req: UpdateReq, source: ApiRow, e: Db)
    requires e.responses == EditAspects(OpenVersion(db, req.project_id, req.user_id, "", ""), req, source, db.next).responses
    ensures && (req.api_responses.None? ==> e.responses == db.responses)
      && (req.api_responses.Some? ==> exists s: nat ::
            e.responses == SoftDeleteActive(db.responses, req.api_id, db.next) + NewRows(s, req.api_id, Some(db.next), req.api_responses.value))
  {
    var d0 := OpenVersion(db, req.project_id, req.user_id, "", "");
    AspectsResponses(d0, req, source, db.next);
    var s: nat := d0.next + (if req.basic_info.Some? then 1 else 0);
    assert req.api_responses.Some? ==>
      e.responses == SoftDeleteActive(db.responses, req.api_id, db.next) + NewRows(s, req.api_id, Some(db.next), req.api_responses.value);
  }

  /** Only the responses step of the aspect steps writes `api_responses`. */
  lemma AspectsResponses(d0: Db, req: UpdateReq, source: ApiRow, v: nat)
    ensures EditAspects(d0, req, source, v).responses
      == if req.api_responses.Some?
         then SoftDeleteActive(d0.responses, req.api_id, v)
              + NewRows(d0.next + (if req.basic_info.Some? then 1 else 0), req.api_id, Some(v), req.api_responses.value)
         else d0.responses
  {
    var d1 := if req.basic_info.Some? then EditBasic(d0, source, req.basic_info.value, v) else d0;
    assert d1.responses == d0.responses && d1.next == d0.next + (if req.basic_info.Some? then 1 else 0);
    var d2 := if req.api_responses.Some? then EditResponses(d1, req.api_id, req.api_responses.value, v) else d1;
    var d3 := if req.api_request_params.Some? then EditParams(d2, req.api_id, req.api_request_params.value, v) else d2;
    assert EditAspects(d0, req, source, v).responses == d3.responses;
  }

  /** Only the params step of the aspect steps writes `request_params`. */
  lemma AspectsParams(d0: Db, req: UpdateReq, source: ApiRow, v: nat)
    ensures EditAspects(d0, req, source, v).params
      == if req.api_request_params.Some?
         then SoftDeleteActive(d0.params, req.api_id, v)
              + NewRows(d0.next + (if req.basic_info.Some? then 1 else 0)
                          + (if req.api_responses.Some? then |req.api_responses.value| else 0),
                        req.api_id, Some(v), KeptParams(req.api_request_params.value))
         else d0.params
  {
    var d1 := if req.basic_info.Some? then EditBasic(d0, source, req.basic_info.value, v) else d0;
    var d2 := if req.api_responses.Some? then EditResponses(d1, req.api_id, req.api_responses.value, v) else d1;
    FirstStepsParams(d0, req, source, v);
    LastStepsParams(d2, req, v);
  }

  /** The basic-info and responses steps leave `request_params` alone and
    * advance the id counter by one per backup and per response. */
  lemma FirstStepsParams(d0: Db, req: UpdateReq, source: ApiRow, v: nat)
    ensures var d1 := if req.basic_info.Some? then EditBasic(d0, source, req.basic_info.value, v) else d0;
      var d2 := if req.api_responses.Some? then EditResponses(d1, req.api_id, req.api_responses.value, v) else d1;
      && d2.params == d0.params
      && d2.next == d0.next + (if req.basic_info.Some? then 1 else 0) + (if req.api_responses.Some? then |req.api_responses.value| else 0)
  {
  }

  /** What the params and body steps leave in `request_params`. */
  lemma LastStepsParams(d2: Db, req: UpdateReq, v: nat)
    ensures var d3 := if req.api_request_params.Some? then EditParams(d2, req.api_id, req.api_request_params.value, v) else d2;
      (if BodySupplied(req) then EditBody(d3, req.api_id, req.api_request_JSON.value, v) else d3).params
      == if req.api_request_params.Some?
         then SoftDeleteActive(d2.params, req.api_id, v) + NewRows(d2.next, req.api_id, Some(v), KeptParams(req.api_request_params.value))
         else d2.params
  {
  }

  /** The parameter table an edit leaves: untouched without parameters,
    * otherwise the active rows retired under the new version and the kept
    * entries inserted under it. */
  lemma EditParamsFact(db: Db, req: UpdateReq, source: ApiRow, e: Db)
    requires e.params == EditAspects(OpenVersion(db, req.project_id, req.user_id, "", ""), req, source, db.next).params
    ensures && (req.api_request_params.None? ==> e.params == db.params)
      && (req.api_request_params.Some? ==> exists s: nat ::
            e.params == SoftDeleteActive(db.params, req.api_id, db.next) + NewRows(s, req.api_id, Some(db.next), KeptParams(req.api_request_params.value)))
  {
    var d0 := OpenVersion(db, req.project_id, req.user_id, "", "");
    var s: nat := d0.next + (if req.basic_info.Some? then 1 else 0)
                  + (if req.api_responses.Some? then |req.api_responses.value| else 0);
    assert e.params == if req.api_request_params.Some?
        then SoftDeleteActive(d0.params, req.api_id, db.next) + NewRows(s, req.api_id, Some(db.next), KeptParams(req.api_request_params.value))
        else d0.params by {
      AspectsParams(d0, req, source, db.next);
    }
    assert d0.params == db.params;
    if req.api_request_params.Some? {
      assert e.params == SoftDeleteActive(db.params, req.api_id, db.next)
                         + NewRows(s, req.api_id, Some(db.next), KeptParams(req.api_request_params.value));
    }
  }

  /** The versioned edit's aspect tables are those the aspect steps leave. */
  lemma EditSpecAspects(db: Db, req: UpdateReq, source: ApiRow)
    ensures var a := EditAspects(OpenVersion(db, req.project_id, req.user_id, "", ""), req, source, db.next);
      EditSpec(db, req, source).responses == a.responses && EditSpec(db, req, source).params == a.params
  {
  }

  /** The closing `version_type` splits back into exactly the supplied aspects;
    * it never lists an add or a delete. */
  lemma ClosedCodes(req: UpdateReq)
    ensures var codes := Split(VersionTypeOf(req));
      && ("0" in codes <==> req.basic_info.Some?)
      && ("1" in codes <==> req.api_responses.Some?)
      && ("2" in codes <==> req.api_request_params.Some?)
      && ("3" in codes <==> BodySupplied(req))
      && "4" !in codes && "5" !in codes
  {
    TypeIsJoinedCodes(req);
    CodesListed(AspectCodes(req));
  }

  /** The closed row of an edit matches the "previous version" query of each
    * aspect it touched. */
  lemma ClosedMatches(db: Db, req: UpdateReq, k: char)
    requires k in AspectCodes(req)
    ensures Closed(db, req).project_id == req.project_id && k in Closed(db, req).version_type
  {
    TypeIsJoinedCodes(req);
    LikeIsMembership(AspectCodes(req), k);
  }

  /** The "previous version" query for an aspect the edit touched, asked
    * with the edit's closed row in the ledger, returns the version that was
    * newest before the edit. */
  lemma ClosedPrevious(db: Db, req: UpdateReq, k: char)
    requires k in AspectCodes(req)
    ensures PreviousId(db.versions + [Closed(db, req)], req.project_id, k) == NewestId(db.versions, req.project_id, k)
  {
    ClosedMatches(db, req, k);
    PreviousOfNewest(db.versions, Closed(db, req), req.project_id, k);
  }

  /** Basic-info step of the rollback of an edit that wrote `info` over the api
    * `id` of `apis` (the row `source`) under version `v` and backed it up. */
  lemma UndoBasic(e: Db, apis: seq<ApiRow>, backups: seq<BackupRow>, id: nat, source: ApiRow, info: BasicInfo, v: nat, project: nat, prev: Option<nat>)
    requires OnlyWithId(apis, source) && source.api_id == id
    requires forall i :: 0 <= i < |backups| ==> backups[i].saved.version_id != Some(v)
    requires PreviousId(e.versions, project, '0') == prev
    requires e.apis == ApplyBasicInfo(apis, source.api_id, info, v)
    requires e.backups == backups + [BackupRow(v + 1, source.(version_id := Some(v)))]
    ensures RollbackBasic(e, v, project) == e.(apis := RetagApi(apis, id, prev), backups := backups)
  {
    var b := BackupRow(v + 1, source.(version_id := Some(v)));
    BasicTablesRoundTrip(apis, backups, source, info, v, prev);
    RollbackBasicOf(e, v, project, b, prev, RetagApi(apis, id, prev), backups);
  }

  /** The basic-info edit, on the `apis` and `api_backup` tables alone, undone
    * from its backup row. */
  lemma BasicTablesRoundTrip(apis: seq<ApiRow>, backups: seq<BackupRow>, source: ApiRow, info: BasicInfo, v: nat, prev: Option<nat>)
    requires OnlyWithId(apis, source)
    requires forall i :: 0 <= i < |backups| ==> backups[i].saved.version_id != Some(v)
    ensures var b := BackupRow(v + 1, source.(version_id := Some(v)));
      && BackupsOf(backups + [b], v) == [b] && DeleteBackups(backups + [b], v) == backups
      && RestoreBasic(ApplyBasicInfo(apis, source.api_id, info, v), b.saved, prev) == RetagApi(apis, source.api_id, prev)
  {
    BackupRoundTrip(backups, BackupRow(v + 1, source.(version_id := Some(v))), v);
    OnlyRowRoundTrip(apis, source, info, v, prev);
  }

  /** What the basic-info step of `rollback` does once the backup, the
    * previous version and the restored tables are known. */
  lemma RollbackBasicOf(e: Db, v: nat, project: nat, b: BackupRow, prev: Option<nat>, apis: seq<ApiRow>, backups: seq<BackupRow>)
    requires BackupsOf(e.backups, v) == [b] && PreviousId(e.versions, project, '0') == prev
    requires RestoreBasic(e.apis, b.saved, prev) == apis && DeleteBackups(e.backups, v) == backups
    ensures RollbackBasic(e, v, project) == e.(apis := apis, backups := backups)
  {
  }

  /** `e` is what the versioned edit of `req` on `db` leaves, table by table. */
  ghost predicate EditedFrom(db: Db, req: UpdateReq, source: ApiRow, e: Db) {
    && e.versions == db.versions + [Closed(db, req)]
    && e.apis == (if req.basic_info.Some? then ApplyBasicInfo(db.apis, source.api_id, req.basic_info.value, db.next) else db.apis)
    && e.backups == (if req.basic_info.Some? then db.backups + [BackupRow(db.next + 1, source.(version_id := Some(db.next)))] else db.backups)
    && (req.api_responses.None? ==> e.responses == db.responses)
    && (req.api_responses.Some? ==> exists s: nat ::
          e.responses == SoftDeleteActive(db.responses, req.api_id, db.next) + NewRows(s, req.api_id, Some(db.next), req.api_responses.value))
    && (req.api_request_params.None? ==> e.params == db.params)
    && (req.api_request_params.Some? ==> exists s: nat ::
          e.params == SoftDeleteActive(db.params, req.api_id, db.next) + NewRows(s, req.api_id, Some(db.next), KeptParams(req.api_request_params.value)))
  }

  lemma EditIsEditedFrom(db: Db, req: UpdateReq, source: ApiRow)
    requires Invariant(db)
    ensures EditedFrom(db, req, source, EditSpec(db, req, source))
  {
    EditVersions(db, req, source);
    EditApis(db, req, source);
    EditSpecAspects(db, req, source);
    EditResponsesFact(db, req, source, EditSpec(db, req, source));
    EditParamsFact(db, req, source, EditSpec(db, req, source));
  }

  /** The facts about an edit that the `apis`/`api_backup` half of its
    * rollback depends on. */
  lemma EditedBasicFacts(db: Db, req: UpdateReq, source: ApiRow, e: Db)
    requires Invariant(db) && FindApi(db.apis, req.api_id) == Some(source) && EditedFrom(db, req, source, e)
    ensures OnlyWithId(db.apis, source) && source.api_id == req.api_id
    ensures forall i :: 0 <= i < |db.backups| ==> db.backups[i].saved.version_id != Some(db.next)
    ensures e.apis == (if req.basic_info.Some? then ApplyBasicInfo(db.apis, source.api_id, req.basic_info.value, db.next) else db.apis)
    ensures e.backups == (if req.basic_info.Some? then db.backups + [BackupRow(db.next + 1, source.(version_id := Some(db.next)))] else db.backups)
    ensures "0" in Split(VersionTypeOf(req)) <==> req.basic_info.Some?
    ensures req.basic_info.Some? ==> PreviousId(e.versions, req.project_id, '0') == NewestId(db.versions, req.project_id, '0')
  {
    FoundIsOnly(db.apis, source);
    BackupsBelowNext(db);
    ClosedCodes(req);
    if req.basic_info.Some? {
      ClosedPrevious(db, req, '0');
    }
  }

  /** The `apis`/`api_backup` half of the rollback of an edit: the state after
    * the basic-info step (taken only when `listed`) holds the tables
    * the edit started from. */
  lemma UndoApis(db: Db, req: UpdateReq, source: ApiRow, e: Db, listed: bool)
    requires OnlyWithId(db.apis, source) && source.api_id == req.api_id
    requires forall i :: 0 <= i < |db.backups| ==> db.backups[i].saved.version_id != Some(db.next)
    requires e.apis == (if req.basic_info.Some? then ApplyBasicInfo(db.apis, source.api_id, req.basic_info.value, db.next) else db.apis)
    requires e.backups == (if req.basic_info.Some? then db.backups + [BackupRow(db.next + 1, source.(version_id := Some(db.next)))] else db.backups)
    requires listed <==> req.basic_info.Some?
    requires req.basic_info.Some? ==> PreviousId(e.versions, req.project_id, '0') == NewestId(db.versions, req.project_id, '0')
    ensures var b := if listed then RollbackBasic(e, db.next, req.project_id) else e;
      && b.apis == (if req.basic_info.Some? then RetagApi(db.apis, req.api_id, NewestId(db.versions, req.project_id, '0')) else db.apis)
      && b.backups == db.backups
  {
    if req.basic_info.Some? {
      UndoBasic(e, db.apis, db.backups, req.api_id, source, req.basic_info.value, db.next, req.project_id,
                NewestId(db.versions, req.project_id, '0'));
    }
  }

  /** No backup row is yet tagged with the next version id. */
  lemma BackupsBelowNext(db: Db)
    requires Invariant(db)
    ensures forall i :: 0 <= i < |db.backups| ==> db.backups[i].saved.version_id != Some(db.next)
  {
    forall i | 0 <= i < |db.backups| ensures db.backups[i].saved.version_id != Some(db.next) {
      if db.backups[i].saved.version_id.Some? {
        assert db.backups[i].saved.version_id.value < db.next;
      }
    }
  }

  /** Only the basic-info step of `rollback` writes `apis` and `api_backup`. */
  lemma ListedBasic(db: Db, v: nat, p: nat, codes: seq<string>)
    ensures var r := RevertListed(db, v, p, codes);
      var b := if "0" in codes then RollbackBasic(db, v, p) else db;
      r.apis == b.apis && r.backups == b.backups
  {
  }

  /** Only the responses step of `rollback` writes `api_responses`. */
  lemma ListedResponses(db: Db, v: nat, p: nat, codes: seq<string>)
    ensures RevertListed(db, v, p, codes).responses
      == if "1" in codes then RevertAspect(db.responses, v, PreviousId(db.versions, p, '1')) else db.responses
  {
    var r1 := if "0" in codes then RollbackBasic(db, v, p) else db;
    assert r1.responses == db.responses && r1.versions == db.versions;
  }

  /** Only the params step of `rollback` writes `request_params`. */
  lemma ListedParams(db: Db, v: nat, p: nat, codes: seq<string>)
    ensures RevertListed(db, v, p, codes).params
      == if "2" in codes then RevertAspect(db.params, v, PreviousId(db.versions, p, '2')) else db.params
  {
    var r1 := if "0" in codes then RollbackBasic(db, v, p) else db;
    var r2 := if "1" in codes then RevertResponses(r1, v, p) else r1;
    assert r2.params == db.params && r2.versions == db.versions;
    var r3 := if "2" in codes then RevertParams(r2, v, p) else r2;
    assert r3.params == if "2" in codes then RevertAspect(db.params, v, PreviousId(db.versions, p, '2')) else db.params;
  }

  /** Responses step of the rollback of an edit whose closed ledger row is
    * `row` and whose split type is `codes`. */
  lemma UndoResponses(db: Db, req: UpdateReq, e: Db, row: VersionRow, codes: seq<string>, s: nat)
    requires TagsBelow(db.responses, db.next)
    requires e.versions == db.versions + [row] && row.project_id == req.project_id
    requires "1" in codes <==> req.api_responses.Some?
    requires req.api_responses.Some? ==> '1' in row.version_type
    requires req.api_responses.None? ==> e.responses == db.responses
    requires req.api_responses.Some? ==>
      e.responses == SoftDeleteActive(db.responses, req.api_id, db.next) + NewRows(s, req.api_id, Some(db.next), req.api_responses.value)
    ensures RevertListed(e, db.next, req.project_id, codes).responses == (
      if req.api_responses.None? then db.responses
      else if |req.api_responses.value| > 0 then RetagActive(db.responses, req.api_id, NewestId(db.versions, req.project_id, '1'))
      else SoftDeleteActive(db.responses, req.api_id, db.next))
  {
    var v := db.next;
    var p := req.project_id;
    ListedResponses(e, v, p, codes);
    if req.api_responses.Some? {
      var items := req.api_responses.value;
      PreviousOfNewest(db.versions, row, p, '1');
      AspectRoundTrip(db.responses, req.api_id, v, s, items, NewestId(db.versions, p, '1'));
    }
  }

  /** Params step of the rollback of an edit whose closed ledger row is `row`
    * and whose split type is `codes`. */
  lemma UndoParams(db: Db, req: UpdateReq, e: Db, row: VersionRow, codes: seq<string>, s: nat)
    requires TagsBelow(db.params, db.next)
    requires e.versions == db.versions + [row] && row.project_id == req.project_id
    requires "2" in codes <==> req.api_request_params.Some?
    requires req.api_request_params.Some? ==> '2' in row.version_type
    requires req.api_request_params.None? ==> e.params == db.params
    requires req.api_request_params.Some? ==>
      e.params == SoftDeleteActive(db.params, req.api_id, db.next) + NewRows(s, req.api_id, Some(db.next), KeptParams(req.api_request_params.value))
    ensures RevertListed(e, db.next, req.project_id, codes).params == (
      if req.api_request_params.None? then db.params
      else if |KeptParams(req.api_request_params.value)| > 0 then RetagActive(db.params, req.api_id, NewestId(db.versions, req.project_id, '2'))
      else SoftDeleteActive(db.params, req.api_id, db.next))
  {
    var v := db.next;
    var p := req.project_id;
    ListedParams(e, v, p, codes);
    if req.api_request_params.Some? {
      var kept := KeptParams(req.api_request_params.value);
      PreviousOfNewest(db.versions, row, p, '2');
      AspectRoundTrip(db.params, req.api_id, v, s, kept, NewestId(db.versions, p, '2'));
    }
  }

  /** Update then roll back the version it opened: the ledger, `api_backup` and
    * `apis` are as before except that the edited api carries the newest earlier
    * basic-info version; each edited list aspect that received rows is back to
    * its pre-edit rows, the restored ones re-tagged with the newest earlier
    * version of that aspect; an edited list aspect that received no row stays
    * retired; the body edit is never undone. */
  lemma UpdateThenRollback(db: Db, req: UpdateReq)
    requires Invariant(db)
    requires !NothingToUpdate(req) && FindApi(db.apis, req.api_id).Some?
    requires !MovesFolder(req, FindApi(db.apis, req.api_id).value)
    ensures var updated := UpdateSpec(db, req).0;
      var undone := RollbackSpec(updated, db.next, req.project_id);
      && undone.1 == Reply(200, 0, None)
      && undone.0.versions == db.versions
      && undone.0.backups == db.backups
      && undone.0.apis == (if req.basic_info.Some? then RetagApi(db.apis, req.api_id, NewestId(db.versions, req.project_id, '0')) else db.apis)
      && undone.0.responses == (
        if req.api_responses.None? then db.responses
        else if |req.api_responses.value| > 0 then RetagActive(db.responses, req.api_id, NewestId(db.versions, req.project_id, '1'))
        else SoftDeleteActive(db.responses, req.api_id, db.next))
      && undone.0.params == (
        if req.api_request_params.None? then db.params
        else if |KeptParams(req.api_request_params.value)| > 0 then RetagActive(db.params, req.api_id, NewestId(db.versions, req.project_id, '2'))
        else SoftDeleteActive(db.params, req.api_id, db.next))
      && undone.0.bodies == updated.bodies
  {
    var source := FindApi(db.apis, req.api_id).value;
    var v := db.next;
    var p := req.project_id;
    var e := EditSpec(db, req, source);
    var codes := Split(VersionTypeOf(req));
    var d := RevertListed(e, v, p, codes);
    assert UpdateSpec(db, req).0 == e;
    RollbackOfEdit(db, req, source);
    assert EditedFrom(db, req, source, e) && Invariant(e) by {
      EditIsEditedFrom(db, req, source);
      EditKeeps(db, req, source);
    }
    assert d.bodies == e.bodies by {
      RevertListedKeeps(e, v, p, codes);
    }
    EditedBasicFacts(db, req, source, e);
    ListedBasic(e, v, p, codes);
    UndoApis(db, req, source, e, "0" in codes);
    UndoAspects(db, req, source, e);
  }

  /** The rollback of an edit's version finds the closed row, refuses nothing
    * and deletes exactly that row from the ledger. */
  lemma RollbackOfEdit(db: Db, req: UpdateReq, source: ApiRow)
    requires Invariant(db)
    ensures var e := EditSpec(db, req, source);
      RollbackSpec(e, db.next, req.project_id)
        == (RevertListed(e, db.next, req.project_id, Split(VersionTypeOf(req))).(versions := db.versions), Reply(200, 0, None))
  {
    var v := db.next;
    var p := req.project_id;
    var e := EditSpec(db, req, source);
    var row := Closed(db, req);
    var codes := Split(VersionTypeOf(req));
    assert IdsBelow(db.versions, v);
    assert e.versions == db.versions + [row] by {
      EditVersions(db, req, source);
    }
    assert FindVersion(e.versions, v) == Some(row) && RemoveVersion(e.versions, v) == db.versions by {
      FindFresh(db.versions, row);
      RemoveFresh(db.versions, row);
    }
    assert "4" !in codes && "5" !in codes by {
      ClosedCodes(req);
    }
    RollbackOfRow(e, v, p, row, db.versions);
  }

  /** `rollback` of a ledger row that is not an add or a delete: the listed
    * aspects are reverted and the row is deleted from the ledger. */
  lemma RollbackOfRow(e: Db, v: nat, p: nat, row: VersionRow, rest: seq<VersionRow>)
    requires FindVersion(e.versions, v) == Some(row) && RemoveVersion(e.versions, v) == rest
    requires "4" !in Split(row.version_type) && "5" !in Split(row.version_type)
    ensures RollbackSpec(e, v, p) == (RevertListed(e, v, p, Split(row.version_type)).(versions := rest), Reply(200, 0, None))
  {
    ListedVersions(e, v, p, Split(row.version_type));
  }

  /** No step of `rollback` before the final `DELETE` writes the ledger. */
  lemma ListedVersions(db: Db, v: nat, p: nat, codes: seq<string>)
    ensures RevertListed(db, v, p, codes).versions == db.versions
  {
    var r1 := if "0" in codes then RollbackBasic(db, v, p) else db;
    assert r1.versions == db.versions;
  }

  /** The list-aspect steps of the rollback of an edit. */
  lemma UndoAspects(db: Db, req: UpdateReq, source: ApiRow, e: Db)
    requires Invariant(db) && EditedFrom(db, req, source, e)
    ensures var r := RevertListed(e, db.next, req.project_id, Split(VersionTypeOf(req)));
      && r.responses == (
        if req.api_responses.None? then db.responses
        else if |req.api_responses.value| > 0 then RetagActive(db.responses, req.api_id, NewestId(db.versions, req.project_id, '1'))
        else SoftDeleteActive(db.responses, req.api_id, db.next))
      && r.params == (
        if req.api_request_params.None? then db.params
        else if |KeptParams(req.api_request_params.value)| > 0 then RetagActive(db.params, req.api_id, NewestId(db.versions, req.project_id, '2'))
        else SoftDeleteActive(db.params, req.api_id, db.next))
  {
    var row := Closed(db, req);
    var codes := Split(VersionTypeOf(req));
    ClosedRowFacts(db, req);
    var s1: nat := 0;
    if req.api_responses.Some? {
      s1 :| e.responses == SoftDeleteActive(db.responses, req.api_id, db.next) + NewRows(s1, req.api_id, Some(db.next), req.api_responses.value);
    }
    UndoResponses(db, req, e, row, codes, s1);
    var s2: nat := 0;
    if req.api_request_params.Some? {
      s2 :| e.params == SoftDeleteActive(db.params, req.api_id, db.next) + NewRows(s2, req.api_id, Some(db.next), KeptParams(req.api_request_params.value));
    }
    UndoParams(db, req, e, row, codes, s2);
  }

  /** The closed row of an edit belongs to its project, and its split type
    * lists the responses and the params exactly when they were edited. */
  lemma ClosedRowFacts(db: Db, req: UpdateReq)
    ensures Closed(db, req).project_id == req.project_id
    ensures "1" in Split(VersionTypeOf(req)) <==> req.api_responses.Some?
    ensures "2" in Split(VersionTypeOf(req)) <==> req.api_request_params.Some?
    ensures req.api_responses.Some? ==> '1' in Closed(db, req).version_type
    ensures req.api_request_params.Some? ==> '2' in Closed(db, req).version_type
  {
    ClosedCodes(req);
    if req.api_responses.Some? { ClosedMatches(db, req, '1'); }
    if req.api_request_params.Some? { ClosedMatches(db, req, '2'); }
  }

  /* ---------- the other outcomes ---------- */

  /** The four outcomes of `updateApi`: nothing supplied (result_code 1, no
    * write); unknown api (500, no write); folder move (only `dictionary_id`
    * written, no version); otherwise exactly one new ledger row, the closed one. */
  lemma UpdateOutcomes(db: Db, req: UpdateReq)
    requires Invariant(db)
    ensures NothingToUpdate(req) ==> UpdateSpec(db, req) == (db, Reply(200, 1, None))
    ensures !NothingToUpdate(req) && FindApi(db.apis, req.api_id).None? ==> UpdateSpec(db, req) == (db, Reply(500, 1, None))
    ensures !NothingToUpdate(req) && FindApi(db.apis, req.api_id).Some? && MovesFolder(req, FindApi(db.apis, req.api_id).value) ==>
      UpdateSpec(db, req) == (db.(apis := SetDictionary(db.apis, req.api_id, req.dictionary_id.value)), Reply(200, 0, Some(req.api_id)))
    ensures !NothingToUpdate(req) && FindApi(db.apis, req.api_id).Some? && !MovesFolder(req, FindApi(db.apis, req.api_id).value) ==>
      UpdateSpec(db, req).0.versions == db.versions + [Closed(db, req)] && UpdateSpec(db, req).1 == Reply(200, 0, Some(req.api_id))
  {
    if !NothingToUpdate(req) && FindApi(db.apis, req.api_id).Some? {
      EditVersions(db, req, FindApi(db.apis, req.api_id).value);
    }
  }

  /** A body-only edit is recorded with type "3"; an edit that supplies no
    * aspect (an unchanged folder) is recorded with an empty type and the
    * message "。". */
  lemma TypeOfSparseEdits(req: UpdateReq)
    ensures req.basic_info.None? && req.api_responses.None? && req.api_request_params.None? && BodySupplied(req) ==>
      VersionTypeOf(req) == "3"
    ensures req.basic_info.None? && req.api_responses.None? && req.api_request_params.None? && !BodySupplied(req) ==>
      VersionTypeOf(req) == "" && VersionMsg(req) == "。"
  {
  }

  /** Once rolled back, a version cannot be rolled back again: its ledger row is
    * gone and the lookup fails. */
  lemma RollbackTwiceFails(db: Db, v: nat, project: nat)
    requires RollbackSpec(db, v, project).1 == Reply(200, 0, None)
    ensures var d := RollbackSpec(db, v, project).0;
      RollbackSpec(d, v, project) == (d, Reply(500, 1, None))
  {
    var row := FindVersion(db.versions, v).value;
    var d := RevertListed(db, v, project, Split(row.version_type));
    assert RollbackSpec(db, v, project).0.versions == RemoveVersion(d.versions, v);
  }

  lemma SplitSingle(c: char)
    requires c != ','
    ensures Split([c]) == [[c]]
  {
    var p := Split([c][..0]);
    assert [c][..0] == [];
    assert p == [""];
    assert Split([c]) == p[..0] + [p[0] + [c]];
    assert p[0] + [c] == [c];
  }

  /** The version `addApi` opens cannot be rolled back. */
  lemma AddNotReversible(db: Db, req: AddReq, project: nat)
    requires Invariant(db)
    ensures var d := AddSpec(db, req).0;
      RollbackSpec(d, db.next, project) == (d, Reply(200, 1, None))
  {
    var row := VersionRow(db.next, req.project_id, req.user_id, "新增了接口。", "4", db.next);
    FindFresh(db.versions, row);
    SplitSingle('4');
  }

  /** The version `deleteApi` opens cannot be rolled back, so a deleted api
    * stays deleted. */
  lemma DeleteNotReversible(db: Db, api: nat, project: nat, user: nat, p: nat)
    requires Invariant(db) && FindApi(db.apis, api).Some?
    ensures var d := DeleteSpec(db, api, project, user).0;
      RollbackSpec(d, db.next, p) == (d, Reply(200, 1, None))
  {
    var row := VersionRow(db.next, project, user, DeleteMsg(FindApi(db.apis, api).value.info.api_name, api), "5", db.next);
    FindFresh(db.versions, row);
    SplitSingle('5');
  }

  /** `deleteApi` changes only the ledger and the api row: no aspect row is touched. */
  lemma DeleteTouchesNoAspect(db: Db, api: nat, project: nat, user: nat)
    requires FindApi(db.apis, api).Some?
    ensures var d := DeleteSpec(db, api, project, user).0;
      && d.backups == db.backups && d.responses == db.responses && d.params == db.params && d.bodies == db.bodies
      && |d.versions| == |db.versions| + 1 && d.versions[|db.versions|].version_type == "5"
      && forall i :: 0 <= i < |d.apis| && db.apis[i].api_id == api ==> d.apis[i].deleted && d.apis[i].version_id == Some(db.next)
  {
  }

  lemma TaggedStep(codes: seq<char>, supplied: bool, c: char, piece: string)
    requires piece == [c, ',']
    ensures Tagged(codes + if supplied then [c] else []) == AddCode(supplied, piece, Tagged(codes))
  {
    if supplied {
      TaggedSnoc(codes, c);
    } else {
      assert codes + [] == codes;
    }
  }

  /** The accumulated type text tags exactly the supplied aspects' codes. */
  lemma TaggedAspects(req: UpdateReq)
    ensures Tagged(AspectCodes(req)) == TypeText(req)
  {
    var c0: seq<char> := [];
    var c1: seq<char> := if req.basic_info.Some? then ['0'] else [];
    var c2: seq<char> := c1 + if req.api_responses.Some? then ['1'] else [];
    var c3: seq<char> := c2 + if req.api_request_params.Some? then ['2'] else [];
    var c4: seq<char> := c3 + if BodySupplied(req) then ['3'] else [];
    assert c4 == AspectCodes(req);
    var t1 := AddCode(req.basic_info.Some?, "0,", "");
    var t2 := AddCode(req.api_responses.Some?, "1,", t1);
    var t3 := AddCode(req.api_request_params.Some?, "2,", t2);
    assert Tagged(c1) == t1 by {
      TaggedStep(c0, req.basic_info.Some?, '0', "0,");
      assert c0 + c1 == c1;
    }
    assert Tagged(c2) == t2 by {
      TaggedStep(c1, req.api_responses.Some?, '1', "1,");
    }
    assert Tagged(c3) == t3 by {
      TaggedStep(c2, req.api_request_params.Some?, '2', "2,");
    }
    assert Tagged(c4) == AddCode(BodySupplied(req), "3,", t3) by {
      TaggedStep(c3, BodySupplied(req), '3', "3,");
    }
  }

  /** The closing `version_type` is the supplied aspects' codes joined by
    * commas, in the order 0, 1, 2, 3. */
  lemma TypeIsJoinedCodes(req: UpdateReq)
    ensures VersionTypeOf(req) == JoinCodes(AspectCodes(req))
  {
    TaggedAspects(req);
  }
}
