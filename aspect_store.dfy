/** The soft-delete history shared by the aspect tables `api_responses`,
  * `request_params` and `request_JSON`. A row is active while its
  * `delete_status` is 0; a superseded row stays in the table with
  * `delete_status` 1 and the id of the version that superseded it. Each
  * function below is one SQL statement of `updateApi` or `rollback`. */
module AspectStore {
  import opened Wrappers

  /** One row of an aspect table: its auto-increment id, the api it belongs to,
    * the payload columns, the nullable `version_id` and `delete_status`
    * (`deleted` is true for 1). */
  datatype Row<P> = Row(row_id: nat, api_id: nat, payload: P, version_id: Option<nat>, deleted: bool)

  /** No row carries a version id at or above `bound`. */
  ghost predicate TagsBelow<P>(rows: seq<Row<P>>, bound: nat) {
    forall r :: r in rows && r.version_id.Some? ==> r.version_id.value < bound
  }

  /** Active rows carry no version id (what `request_JSON` rows look like, since
    * `updateApi` inserts them without one). */
  ghost predicate ActiveUntagged<P>(rows: seq<Row<P>>) {
    forall r :: r in rows && !r.deleted ==> r.version_id == None
  }

  /** At most one active row per api. */
  ghost predicate AtMostOneActive<P>(rows: seq<Row<P>>) {
    forall i, j :: 0 <= i < j < |rows| && !rows[i].deleted && !rows[j].deleted ==> rows[i].api_id != rows[j].api_id
  }

  predicate ActiveUnder<P>(r: Row<P>, v: nat) {
    !r.deleted && r.version_id == Some(v)
  }

  /** No active row carries version `v`. */
  predicate NoneActiveUnder<P>(rows: seq<Row<P>>, v: nat) {
    forall i :: 0 <= i < |rows| ==> !ActiveUnder(rows[i], v)
  }

  /** `UPDATE t SET delete_status = 1, version_id = v WHERE api_id = api AND delete_status = 0`:
    * every active row of the api is retired and tagged with `v`; nothing else changes. */
  function SoftDeleteActive<P>(rows: seq<Row<P>>, api: nat, v: nat): (r: seq<Row<P>>)
    ensures |r| == |rows|
    ensures forall i :: 0 <= i < |r| && r[i].api_id == api ==> r[i].deleted
    ensures forall i :: 0 <= i < |r| && (rows[i].api_id != api || rows[i].deleted) ==> r[i] == rows[i]
    ensures forall i :: 0 <= i < |r| && rows[i].api_id == api && !rows[i].deleted ==>
      r[i].version_id == Some(v) && r[i].(deleted := false, version_id := rows[i].version_id) == rows[i]
  {
    seq(|rows|, i requires 0 <= i < |rows| =>
      if rows[i].api_id == api && !rows[i].deleted then rows[i].(deleted := true, version_id := Some(v)) else rows[i])
  }

  /** One `INSERT` per payload, in order: active rows of the api tagged `tag`,
    * with consecutive auto-increment ids from `start`. */
  function NewRows<P>(start: nat, api: nat, tag: Option<nat>, payloads: seq<P>): (r: seq<Row<P>>)
    ensures |r| == |payloads|
    ensures forall i :: 0 <= i < |r| ==> r[i] == Row(start + i, api, payloads[i], tag, false)
  {
    if |payloads| == 0 then []
    else NewRows(start, api, tag, payloads[..|payloads| - 1]) + [Row(start + |payloads| - 1, api, payloads[|payloads| - 1], tag, false)]
  }

  /** `SELECT * FROM t WHERE version_id = v AND delete_status = 0`, in table order. */
  function SelectActiveUnder<P>(rows: seq<Row<P>>, v: nat): (r: seq<Row<P>>)
    ensures forall i :: 0 <= i < |r| ==> r[i] in rows && ActiveUnder(r[i], v)
    ensures forall i :: 0 <= i < |rows| && ActiveUnder(rows[i], v) ==> rows[i] in r
    ensures |r| == 0 <==> NoneActiveUnder(rows, v)
  {
    if |rows| == 0 then []
    else (if ActiveUnder(rows[0], v) then [rows[0]] else []) + SelectActiveUnder(rows[1..], v)
  }

  /** `DELETE FROM t WHERE version_id = v AND delete_status = 0`. */
  function DeleteActiveUnder<P>(rows: seq<Row<P>>, v: nat): (r: seq<Row<P>>)
    ensures forall i :: 0 <= i < |r| ==> r[i] in rows && !ActiveUnder(r[i], v)
    ensures forall i :: 0 <= i < |rows| && !ActiveUnder(rows[i], v) ==> rows[i] in r
  {
    if |rows| == 0 then []
    else (if ActiveUnder(rows[0], v) then [] else [rows[0]]) + DeleteActiveUnder(rows[1..], v)
  }

  /** `UPDATE t SET delete_status = 0, version_id = prev WHERE version_id = v AND delete_status = 1`:
    * the rows `v` retired become active again, tagged with `prev`. */
  function Reactivate<P>(rows: seq<Row<P>>, v: nat, prev: Option<nat>): (r: seq<Row<P>>)
    ensures |r| == |rows|
    ensures forall i :: 0 <= i < |r| && rows[i].deleted && rows[i].version_id == Some(v) ==>
      !r[i].deleted && r[i].version_id == prev && r[i].(deleted := true, version_id := Some(v)) == rows[i]
    ensures forall i :: 0 <= i < |r| && !(rows[i].deleted && rows[i].version_id == Some(v)) ==> r[i] == rows[i]
  {
    seq(|rows|, i requires 0 <= i < |rows| =>
      if rows[i].deleted && rows[i].version_id == Some(v) then rows[i].(deleted := false, version_id := prev) else rows[i])
  }

  /** The rollback of one aspect: only when some active row carries `v` are those
    * rows deleted and the rows `v` retired reactivated under `prev`; otherwise
    * the table is left as it is. */
  function RevertAspect<P>(rows: seq<Row<P>>, v: nat, prev: Option<nat>): (r: seq<Row<P>>)
    ensures NoneActiveUnder(rows, v) ==> r == rows
    ensures !NoneActiveUnder(rows, v) ==> r == Reactivate(DeleteActiveUnder(rows, v), v, prev)
  {
    if |SelectActiveUnder(rows, v)| > 0 then Reactivate(DeleteActiveUnder(rows, v), v, prev) else rows
  }

  /** The rows of `rows` with the active rows of `api` re-tagged with `tag`. */
  function RetagActive<P>(rows: seq<Row<P>>, api: nat, tag: Option<nat>): (r: seq<Row<P>>)
    ensures |r| == |rows|
    ensures forall i :: 0 <= i < |r| ==> r[i].(version_id := rows[i].version_id) == rows[i]
    ensures forall i :: 0 <= i < |r| && (rows[i].deleted || rows[i].api_id != api) ==> r[i] == rows[i]
    ensures forall i :: 0 <= i < |r| && !rows[i].deleted && rows[i].api_id == api ==> r[i].version_id == tag
  {
    seq(|rows|, i requires 0 <= i < |rows| =>
      if !rows[i].deleted && rows[i].api_id == api then rows[i].(version_id := tag) else rows[i])
  }

  /** The `SELECT` and the `DELETE` split the table: every row goes to
    * exactly one of them, as many times as it occurs. */
  lemma {:induction false} SelectDeleteSplit<P>(rows: seq<Row<P>>, v: nat)
    ensures multiset(SelectActiveUnder(rows, v)) + multiset(DeleteActiveUnder(rows, v)) == multiset(rows)
  {
    if |rows| > 0 {
      var head := rows[0];
      var tail := rows[1..];
      SelectDeleteSplit(tail, v);
      assert rows == [head] + tail;
      var select := SelectActiveUnder(tail, v);
      var delete := DeleteActiveUnder(tail, v);
      if ActiveUnder(head, v) {
        assert SelectActiveUnder(rows, v) == [head] + select && DeleteActiveUnder(rows, v) == delete;
      } else {
        assert SelectActiveUnder(rows, v) == select && DeleteActiveUnder(rows, v) == [head] + delete;
      }
    }
  }

  lemma {:induction false} DeleteActiveUnderAppend<P>(a: seq<Row<P>>, b: seq<Row<P>>, v: nat)
    ensures DeleteActiveUnder(a + b, v) == DeleteActiveUnder(a, v) + DeleteActiveUnder(b, v)
  {
    if |a| > 0 {
      var head := if ActiveUnder(a[0], v) then [] else [a[0]];
      assert (a + b)[0] == a[0];
      assert (a + b)[1..] == a[1..] + b;
      assert DeleteActiveUnder(a + b, v) == head + DeleteActiveUnder(a[1..] + b, v);
      DeleteActiveUnderAppend(a[1..], b, v);
      assert DeleteActiveUnder(a, v) == head + DeleteActiveUnder(a[1..], v);
    } else {
      assert a + b == b;
    }
  }

  lemma {:induction false} DeleteActiveUnderNone<P>(rows: seq<Row<P>>, v: nat)
    requires NoneActiveUnder(rows, v)
    ensures DeleteActiveUnder(rows, v) == rows
  {
    if |rows| > 0 {
      DeleteActiveUnderNone(rows[1..], v);
      assert rows == [rows[0]] + rows[1..];
    }
  }

  lemma {:induction false} DeleteActiveUnderAll<P>(rows: seq<Row<P>>, v: nat)
    requires forall i :: 0 <= i < |rows| ==> ActiveUnder(rows[i], v)
    ensures DeleteActiveUnder(rows, v) == []
  {
    if |rows| > 0 {
      DeleteActiveUnderAll(rows[1..], v);
    }
  }

  /** Update then rollback of one list aspect. The update retires the api's
    * active rows under the fresh version `v` and inserts `payloads` under `v`;
    * the rollback then gives back exactly the old table, except that the
    * restored rows carry `prev` as their version id. When `payloads` is empty no
    * active row carries `v` and the rollback leaves the updated table alone. */
  lemma AspectRoundTrip<P>(rows: seq<Row<P>>, api: nat, v: nat, start: nat, payloads: seq<P>, prev: Option<nat>)
    requires TagsBelow(rows, v)
    ensures var updated := SoftDeleteActive(rows, api, v) + NewRows(start, api, Some(v), payloads);
      RevertAspect(updated, v, prev) == if |payloads| > 0 then RetagActive(rows, api, prev) else updated
  {
    var retired := SoftDeleteActive(rows, api, v);
    var added := NewRows(start, api, Some(v), payloads);
    var updated := retired + added;
    assert NoneActiveUnder(retired, v) by {
      forall i | 0 <= i < |retired| ensures !ActiveUnder(retired[i], v) {
        assert rows[i] in rows;
      }
    }
    if |payloads| == 0 {
      assert updated == retired;
    } else {
      assert !NoneActiveUnder(updated, v) by {
        assert updated[|retired|] == added[0];
      }
      assert DeleteActiveUnder(updated, v) == retired by {
        DeleteActiveUnderAppend(retired, added, v);
        DeleteActiveUnderNone(retired, v);
        DeleteActiveUnderAll(added, v);
        assert retired + [] == retired;
      }
      assert Reactivate(retired, v, prev) == RetagActive(rows, api, prev) by {
        var r := Reactivate(retired, v, prev);
        var e := RetagActive(rows, api, prev);
        forall i | 0 <= i < |rows| ensures r[i] == e[i] {
          assert rows[i] in rows;
        }
      }
    }
  }

  /** The asymmetry of the body table: when no active row carries a version id,
    * the rollback step finds nothing to reverse, whatever the version. */
  lemma UntaggedNeverReverted<P>(rows: seq<Row<P>>, v: nat, prev: Option<nat>)
    requires ActiveUntagged(rows)
    ensures RevertAspect(rows, v, prev) == rows
  {
  }

  /** Replacing the active row of an api by one new untagged row keeps the body
    * table's shape: active rows untagged, at most one per api. */
  lemma ReplaceUntaggedKeepsShape<P>(rows: seq<Row<P>>, api: nat, v: nat, start: nat, payload: P)
    requires ActiveUntagged(rows) && AtMostOneActive(rows)
    ensures var r := SoftDeleteActive(rows, api, v) + NewRows(start, api, None, [payload]);
      ActiveUntagged(r) && AtMostOneActive(r)
  {
    var retired := SoftDeleteActive(rows, api, v);
    var r := retired + NewRows(start, api, None, [payload]);
    forall x | x in r && !x.deleted ensures x.version_id == None {
      if x in retired {
        var i :| 0 <= i < |retired| && retired[i] == x;
        assert rows[i] in rows;
      }
    }
  }

  lemma TagsBelowRetire<P>(rows: seq<Row<P>>, api: nat, v: nat, bound: nat)
    requires TagsBelow(rows, bound) && v < bound
    ensures TagsBelow(SoftDeleteActive(rows, api, v), bound)
  {
    var r := SoftDeleteActive(rows, api, v);
    forall x | x in r && x.version_id.Some? ensures x.version_id.value < bound {
      var i :| 0 <= i < |r| && r[i] == x;
      assert rows[i] in rows;
    }
  }

  lemma TagsBelowRevert<P>(rows: seq<Row<P>>, v: nat, prev: Option<nat>, bound: nat)
    requires TagsBelow(rows, bound)
    requires prev.Some? ==> prev.value < bound
    ensures TagsBelow(RevertAspect(rows, v, prev), bound)
  {
    var d := DeleteActiveUnder(rows, v);
    var r := Reactivate(d, v, prev);
    forall x | x in r && x.version_id.Some? ensures x.version_id.value < bound {
      var i :| 0 <= i < |r| && r[i] == x;
      assert d[i] in d;
    }
  }

  /** One more payload inserted is one more row at the end, with the next id. */
  lemma NewRowsSnoc<P>(start: nat, api: nat, tag: Option<nat>, payloads: seq<P>, x: P)
    ensures NewRows(start, api, tag, payloads + [x]) == NewRows(start, api, tag, payloads) + [Row(start + |payloads|, api, x, tag, false)]
  {
    assert (payloads + [x])[..|payloads|] == payloads;
  }

}
