/** The `apis` table and its `api_backup` copy: the statements of `updateApi`,
  * `addApi`, `deleteApi` and `rollback` on them. */
module ApiTable {
  import opened Wrappers

  /** The columns of `apis` that an update's `basic_info` carries. */
  datatype BasicInfo = BasicInfo(
    api_name: string, api_url: string, api_method: string, api_status: int,
    api_principal_id: int, api_editor_id: int, api_desc: string)

  /** A row of `apis`; `deleted` is `delete_status` 1, `version_id` is nullable. */
  datatype ApiRow = ApiRow(
    api_id: nat, project_id: nat, dictionary_id: nat, info: BasicInfo,
    api_creator_id: int, version_id: Option<nat>, deleted: bool)

  /** A row of `api_backup`: a whole `apis` row, saved with the id of the version
    * whose basic-info edit replaced it. */
  datatype BackupRow = BackupRow(backup_id: nat, saved: ApiRow)

  /** `api_id` is a primary key. */
  ghost predicate UniqueIds(apis: seq<ApiRow>) {
    forall i, j :: 0 <= i < j < |apis| ==> apis[i].api_id != apis[j].api_id
  }

  /** `SELECT * FROM apis WHERE api_id = id`, first row; `None` is the `undefined`
    * that the handlers then fail on. */
  function FindApi(apis: seq<ApiRow>, id: nat): (r: Option<ApiRow>)
    ensures r.None? <==> forall i :: 0 <= i < |apis| ==> apis[i].api_id != id
    ensures r.Some? ==> r.value in apis && r.value.api_id == id
  {
    if |apis| == 0 then None
    else if apis[0].api_id == id then Some(apis[0])
    else FindApi(apis[1..], id)
  }

  /** `UPDATE apis SET dictionary_id = d WHERE api_id = id`: moves the api to another folder. */
  function SetDictionary(apis: seq<ApiRow>, id: nat, d: nat): (r: seq<ApiRow>)
    ensures |r| == |apis|
    ensures forall i :: 0 <= i < |r| && apis[i].api_id == id ==> r[i] == apis[i].(dictionary_id := d)
    ensures forall i :: 0 <= i < |r| && apis[i].api_id != id ==> r[i] == apis[i]
  {
    seq(|apis|, i requires 0 <= i < |apis| => if apis[i].api_id == id then apis[i].(dictionary_id := d) else apis[i])
  }

  /** `UPDATE apis SET {...basic_info, version_id} WHERE api_id = id`. */
  function ApplyBasicInfo(apis: seq<ApiRow>, id: nat, info: BasicInfo, v: nat): (r: seq<ApiRow>)
    ensures |r| == |apis|
    ensures forall i :: 0 <= i < |r| && apis[i].api_id == id ==> r[i] == apis[i].(info := info, version_id := Some(v))
    ensures forall i :: 0 <= i < |r| && apis[i].api_id != id ==> r[i] == apis[i]
  {
    seq(|apis|, i requires 0 <= i < |apis| => if apis[i].api_id == id then apis[i].(info := info, version_id := Some(v)) else apis[i])
  }

  /** `UPDATE apis SET delete_status = 1, version_id = v WHERE api_id = id`: the soft delete of `deleteApi`. */
  function MarkDeleted(apis: seq<ApiRow>, id: nat, v: nat): (r: seq<ApiRow>)
    ensures |r| == |apis|
    ensures forall i :: 0 <= i < |r| && apis[i].api_id == id ==> r[i] == apis[i].(deleted := true, version_id := Some(v))
    ensures forall i :: 0 <= i < |r| && apis[i].api_id != id ==> r[i] == apis[i]
  {
    seq(|apis|, i requires 0 <= i < |apis| => if apis[i].api_id == id then apis[i].(deleted := true, version_id := Some(v)) else apis[i])
  }

  /** What `rollback` writes back onto an api from a backup: every column of the
    * backup except `backup_id`, `api_id`, `project_id`, `version_id`, the two
    * timestamps and `delete_status`, with `version_id` set to `prev`. */
  function Restored(row: ApiRow, saved: ApiRow, prev: Option<nat>): (r: ApiRow)
    ensures r.api_id == row.api_id && r.project_id == row.project_id && r.deleted == row.deleted
    ensures r.version_id == prev
    ensures r.(api_id := saved.api_id, project_id := saved.project_id, deleted := saved.deleted, version_id := saved.version_id) == saved
  {
    row.(dictionary_id := saved.dictionary_id, info := saved.info, api_creator_id := saved.api_creator_id, version_id := prev)
  }

  /** `UPDATE apis SET {...restored columns, version_id: prev} WHERE api_id = saved.api_id`. */
  function RestoreBasic(apis: seq<ApiRow>, saved: ApiRow, prev: Option<nat>): (r: seq<ApiRow>)
    ensures |r| == |apis|
    ensures forall i :: 0 <= i < |r| && apis[i].api_id == saved.api_id ==> r[i] == Restored(apis[i], saved, prev)
    ensures forall i :: 0 <= i < |r| && apis[i].api_id != saved.api_id ==> r[i] == apis[i]
  {
    seq(|apis|, i requires 0 <= i < |apis| => if apis[i].api_id == saved.api_id then Restored(apis[i], saved, prev) else apis[i])
  }

  /** The table with the version id of api `id` set to `tag`, all else unchanged. */
  function RetagApi(apis: seq<ApiRow>, id: nat, tag: Option<nat>): (r: seq<ApiRow>)
    ensures |r| == |apis|
    ensures forall i :: 0 <= i < |r| && apis[i].api_id == id ==> r[i] == apis[i].(version_id := tag)
    ensures forall i :: 0 <= i < |r| && apis[i].api_id != id ==> r[i] == apis[i]
  {
    seq(|apis|, i requires 0 <= i < |apis| => if apis[i].api_id == id then apis[i].(version_id := tag) else apis[i])
  }

  /** `row` is the only row of `apis` with its id. */
  ghost predicate OnlyWithId(apis: seq<ApiRow>, row: ApiRow) {
    forall i :: 0 <= i < |apis| && apis[i].api_id == row.api_id ==> apis[i] == row
  }

  /** With unique ids, the row `FindApi` returns is the only row with its id. */
  lemma FoundIsOnly(apis: seq<ApiRow>, row: ApiRow)
    requires UniqueIds(apis) && FindApi(apis, row.api_id) == Some(row)
    ensures OnlyWithId(apis, row)
  {
    var j :| 0 <= j < |apis| && apis[j] == row;
    forall i | 0 <= i < |apis| && apis[i].api_id == row.api_id ensures apis[i] == row {
      if i < j {
      } else if j < i {
      }
    }
  }

  /** Basic-info edit then restore from its backup: the api row gets back every
    * column it had, except that its version id becomes `prev`. */
  lemma BasicRoundTrip(apis: seq<ApiRow>, source: ApiRow, info: BasicInfo, v: nat, prev: Option<nat>)
    requires UniqueIds(apis) && FindApi(apis, source.api_id) == Some(source)
    ensures RestoreBasic(ApplyBasicInfo(apis, source.api_id, info, v), source.(version_id := Some(v)), prev)
         == RetagApi(apis, source.api_id, prev)
  {
    FoundIsOnly(apis, source);
    OnlyRowRoundTrip(apis, source, info, v, prev);
  }

  /** The round trip of `BasicRoundTrip`, for an api that is the only row with its id. */
  lemma OnlyRowRoundTrip(apis: seq<ApiRow>, source: ApiRow, info: BasicInfo, v: nat, prev: Option<nat>)
    requires OnlyWithId(apis, source)
    ensures RestoreBasic(ApplyBasicInfo(apis, source.api_id, info, v), source.(version_id := Some(v)), prev)
         == RetagApi(apis, source.api_id, prev)
  {
    var edited := ApplyBasicInfo(apis, source.api_id, info, v);
    var r := RestoreBasic(edited, source.(version_id := Some(v)), prev);
    var e := RetagApi(apis, source.api_id, prev);
    assert |r| == |e|;
    forall i | 0 <= i < |apis| ensures r[i] == e[i] {
      if apis[i].api_id == source.api_id {
        assert apis[i] == source;
      }
    }
  }

  /** `SELECT * FROM api_backup WHERE version_id = v`, in table order. */
  function BackupsOf(backups: seq<BackupRow>, v: nat): (r: seq<BackupRow>)
    ensures forall i :: 0 <= i < |r| ==> r[i] in backups && r[i].saved.version_id == Some(v)
    ensures forall i :: 0 <= i < |backups| && backups[i].saved.version_id == Some(v) ==> backups[i] in r
  {
    if |backups| == 0 then []
    else
      var last := backups[|backups| - 1];
      BackupsOf(backups[..|backups| - 1], v) + (if last.saved.version_id == Some(v) then [last] else [])
  }

  /** `DELETE FROM api_backup WHERE version_id = v`. */
  function DeleteBackups(backups: seq<BackupRow>, v: nat): (r: seq<BackupRow>)
    ensures forall i :: 0 <= i < |r| ==> r[i] in backups && r[i].saved.version_id != Some(v)
    ensures forall i :: 0 <= i < |backups| && backups[i].saved.version_id != Some(v) ==> backups[i] in r
  {
    if |backups| == 0 then []
    else
      var last := backups[|backups| - 1];
      DeleteBackups(backups[..|backups| - 1], v) + (if last.saved.version_id == Some(v) then [] else [last])
  }

  lemma {:induction false} BackupsOfUntagged(backups: seq<BackupRow>, v: nat)
    requires forall i :: 0 <= i < |backups| ==> backups[i].saved.version_id != Some(v)
    ensures BackupsOf(backups, v) == [] && DeleteBackups(backups, v) == backups
  {
    if |backups| > 0 {
      BackupsOfUntagged(backups[..|backups| - 1], v);
      assert backups == backups[..|backups| - 1] + [backups[|backups| - 1]];
    }
  }

  /** The backup written by an edit is the only one its version finds, and
    * deleting the version's backups gives back the table before the edit. */
  lemma BackupRoundTrip(backups: seq<BackupRow>, b: BackupRow, v: nat)
    requires forall i :: 0 <= i < |backups| ==> backups[i].saved.version_id != Some(v)
    requires b.saved.version_id == Some(v)
    ensures BackupsOf(backups + [b], v) == [b]
    ensures DeleteBackups(backups + [b], v) == backups
  {
    BackupsOfUntagged(backups, v);
    assert (backups + [b])[..|backups|] == backups;
  }
}
