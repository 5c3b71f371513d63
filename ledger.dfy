/** The version ledger `api_versions`: one row per create, delete or edit of an
  * api, with the comma-joined `version_type` codes and the `version_msg`
  * summary. `createdAt` comes from a counter that only grows. */
module Ledger {
  import opened Wrappers

  datatype VersionRow = VersionRow(
    version_id: nat, project_id: nat, user_id: nat,
    version_msg: string, version_type: string, createdAt: nat)

  /** Rows were appended in creation order. */
  ghost predicate Chronological(vs: seq<VersionRow>) {
    forall i, j :: 0 <= i < j < |vs| ==> vs[i].createdAt < vs[j].createdAt
  }

  /** `SELECT version_type FROM api_versions WHERE version_id = v`, first row. */
  function FindVersion(vs: seq<VersionRow>, v: nat): (r: Option<VersionRow>)
    ensures r.None? <==> forall i :: 0 <= i < |vs| ==> vs[i].version_id != v
    ensures r.Some? ==> r.value in vs && r.value.version_id == v
  {
    if |vs| == 0 then None
    else if vs[0].version_id == v then Some(vs[0])
    else FindVersion(vs[1..], v)
  }

  /** `UPDATE api_versions SET version_msg = msg, version_type = t WHERE version_id = v`. */
  function CloseVersion(vs: seq<VersionRow>, v: nat, msg: string, t: string): (r: seq<VersionRow>)
    ensures |r| == |vs|
    ensures forall i :: 0 <= i < |r| && vs[i].version_id == v ==> r[i] == vs[i].(version_msg := msg, version_type := t)
    ensures forall i :: 0 <= i < |r| && vs[i].version_id != v ==> r[i] == vs[i]
  {
    seq(|vs|, i requires 0 <= i < |vs| => if vs[i].version_id == v then vs[i].(version_msg := msg, version_type := t) else vs[i])
  }

  /** `DELETE FROM api_versions WHERE version_id = v`. */
  function RemoveVersion(vs: seq<VersionRow>, v: nat): (r: seq<VersionRow>)
    ensures forall i :: 0 <= i < |r| ==> r[i] in vs && r[i].version_id != v
    ensures forall x :: x in vs && x.version_id != v ==> x in r
  {
    if |vs| == 0 then []
    else
      var last := vs[|vs| - 1];
      assert vs == vs[..|vs| - 1] + [last];
      RemoveVersion(vs[..|vs| - 1], v) + (if last.version_id == v then [] else [last])
  }

  /** `WHERE project_id = p AND version_type LIKE "%k%"` for a one-character
    * code `k`, in table order. */
  function Matching(vs: seq<VersionRow>, p: nat, k: char): (r: seq<VersionRow>)
    ensures forall i :: 0 <= i < |r| ==> r[i] in vs && r[i].project_id == p && k in r[i].version_type
    ensures forall x :: x in vs && x.project_id == p && k in x.version_type ==> x in r
    ensures |r| <= |vs|
  {
    if |vs| == 0 then []
    else
      var last := vs[|vs| - 1];
      assert vs == vs[..|vs| - 1] + [last];
      Matching(vs[..|vs| - 1], p, k) + (if last.project_id == p && k in last.version_type then [last] else [])
  }

  function Reverse<T>(s: seq<T>): (r: seq<T>)
    ensures |r| == |s|
    ensures forall i :: 0 <= i < |s| ==> r[i] == s[|s| - 1 - i]
  {
    seq(|s|, i requires 0 <= i < |s| => s[|s| - 1 - i])
  }

  /** `ORDER BY createdAt DESC` of rows listed in table order (see `NewestFirstIsDescending`). */
  function NewestFirst(s: seq<VersionRow>): seq<VersionRow> {
    Reverse(s)
  }

  /** The "previous version" of `rollback` for code `k`: the second row of the
    * project's matching versions, newest first, or null when there are fewer
    * than two. It does not depend on the version being rolled back. */
  function PreviousId(vs: seq<VersionRow>, p: nat, k: char): (r: Option<nat>)
    ensures r.Some? <==> |Matching(vs, p, k)| > 1
    ensures r.Some? ==> var m := Matching(vs, p, k); r.value == m[|m| - 2].version_id
  {
    var m := NewestFirst(Matching(vs, p, k));
    if |m| > 1 then Some(m[1].version_id) else None
  }

  /** The newest version of the project whose type contains `k`, if any. */
  function NewestId(vs: seq<VersionRow>, p: nat, k: char): Option<nat> {
    var m := Matching(vs, p, k);
    if |m| == 0 then None else Some(m[|m| - 1].version_id)
  }

  lemma {:induction false} MatchingChronological(vs: seq<VersionRow>, p: nat, k: char)
    requires Chronological(vs)
    ensures Chronological(Matching(vs, p, k))
  {
    if |vs| > 0 {
      var pre := vs[..|vs| - 1];
      var last := vs[|vs| - 1];
      MatchingChronological(pre, p, k);
      var m := Matching(pre, p, k);
      forall i | 0 <= i < |m| ensures m[i].createdAt < last.createdAt {
        var j :| 0 <= j < |pre| && pre[j] == m[i];
      }
    }
  }

  /** Reading the rows in reverse table order is reading them by `createdAt`
    * descending, as the SQL query does. */
  lemma NewestFirstIsDescending(vs: seq<VersionRow>, p: nat, k: char)
    requires Chronological(vs)
    ensures var m := NewestFirst(Matching(vs, p, k));
      forall i, j :: 0 <= i < j < |m| ==> m[i].createdAt > m[j].createdAt
  {
    MatchingChronological(vs, p, k);
  }

  /** With the version being rolled back the newest matching one, the query's
    * "previous version" is the newest matching version before it. */
  lemma PreviousOfNewest(vs: seq<VersionRow>, row: VersionRow, p: nat, k: char)
    requires row.project_id == p && k in row.version_type
    ensures PreviousId(vs + [row], p, k) == NewestId(vs, p, k)
  {
    assert (vs + [row])[..|vs|] == vs;
    assert Matching(vs + [row], p, k) == Matching(vs, p, k) + [row];
  }

  /** Rolling back a version that is not the newest: the query still returns
    * the second newest row, which can be the very version being rolled back
    * (here version 2 of three basic-info edits). */
  lemma PreviousIgnoresTarget()
    ensures var vs := [VersionRow(1, 7, 1, "", "0", 1), VersionRow(2, 7, 1, "", "0", 2), VersionRow(3, 7, 1, "", "0", 3)];
      PreviousId(vs, 7, '0') == Some(2)
  {
    var vs := [VersionRow(1, 7, 1, "", "0", 1), VersionRow(2, 7, 1, "", "0", 2), VersionRow(3, 7, 1, "", "0", 3)];
    MatchingAll(vs, 7, '0');
  }

  /** When every row matches, the query returns the whole ledger. */
  lemma {:induction false} MatchingAll(vs: seq<VersionRow>, p: nat, k: char)
    requires forall i :: 0 <= i < |vs| ==> vs[i].project_id == p && k in vs[i].version_type
    ensures Matching(vs, p, k) == vs
  {
    if |vs| > 0 {
      var front := vs[..|vs| - 1];
      var last := vs[|vs| - 1];
      assert front + [last] == vs;
      MatchingAll(front, p, k);
      assert last.project_id == p && k in last.version_type;
      assert Matching(vs, p, k) == Matching(front, p, k) + [last];
    }
  }

  /** Every row's id is below `v`. */
  predicate IdsBelow(vs: seq<VersionRow>, v: nat) {
    forall i :: 0 <= i < |vs| ==> vs[i].version_id < v
  }

  /** A row appended with a fresh id is what the lookup of that id finds. */
  lemma {:induction false} FindFresh(vs: seq<VersionRow>, row: VersionRow)
    requires IdsBelow(vs, row.version_id)
    ensures FindVersion(vs + [row], row.version_id) == Some(row)
  {
    if |vs| > 0 {
      assert (vs + [row])[1..] == vs[1..] + [row];
      FindFresh(vs[1..], row);
    }
  }

  /** Closing a version with a fresh id rewrites only the row appended for it. */
  lemma CloseFresh(vs: seq<VersionRow>, row: VersionRow, msg: string, t: string)
    requires IdsBelow(vs, row.version_id)
    ensures CloseVersion(vs + [row], row.version_id, msg, t) == vs + [row.(version_msg := msg, version_type := t)]
  {
  }

  lemma {:induction false} RemoveAbsent(vs: seq<VersionRow>, v: nat)
    requires forall i :: 0 <= i < |vs| ==> vs[i].version_id != v
    ensures RemoveVersion(vs, v) == vs
  {
    if |vs| > 0 {
      var pre := vs[..|vs| - 1];
      RemoveAbsent(pre, v);
      assert RemoveVersion(vs, v) == pre + [vs[|vs| - 1]];
      assert pre + [vs[|vs| - 1]] == vs;
    }
  }

  /** The `DELETE` removes only the rows of version `v`. */
  lemma {:induction false} RemoveKeepsOthers(vs: seq<VersionRow>, v: nat, i: nat)
    requires i < |vs| && vs[i].version_id != v
    ensures vs[i] in RemoveVersion(vs, v)
  {
    var pre := vs[..|vs| - 1];
    if i < |vs| - 1 {
      RemoveKeepsOthers(pre, v, i);
    }
  }

  /** Deleting a version with a fresh id gives back the ledger before it was appended. */
  lemma RemoveFresh(vs: seq<VersionRow>, row: VersionRow)
    requires IdsBelow(vs, row.version_id)
    ensures RemoveVersion(vs + [row], row.version_id) == vs
  {
    assert (vs + [row])[..|vs|] == vs;
    RemoveAbsent(vs, row.version_id);
  }

  /** Deleting versions keeps the ledger in creation order. */
  lemma {:induction false} RemoveChronological(vs: seq<VersionRow>, v: nat)
    requires Chronological(vs)
    ensures Chronological(RemoveVersion(vs, v))
  {
    if |vs| > 0 {
      var pre := vs[..|vs| - 1];
      var last := vs[|vs| - 1];
      RemoveChronological(pre, v);
      var m := RemoveVersion(pre, v);
      forall i | 0 <= i < |m| ensures m[i].createdAt < last.createdAt {
        var j :| 0 <= j < |pre| && pre[j] == m[i];
      }
    }
  }

  /** A previous id, when there is one, is the id of a ledger row. */
  lemma PreviousIsListed(vs: seq<VersionRow>, p: nat, k: char)
    requires PreviousId(vs, p, k).Some?
    ensures exists i :: 0 <= i < |vs| && vs[i].version_id == PreviousId(vs, p, k).value
  {
    var m := Matching(vs, p, k);
    assert m[|m| - 2] in vs;
  }
}
