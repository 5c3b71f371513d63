/** The project-wide parameters, variables and environments of
  * `getGlobalInfo` and `updateGlobalInfo` (controller/projects/index.ts). */
module GlobalInfo {
  import opened Wrappers
  import opened RequestParams

  /** A row of `global_params`: `father_type` 0 is a header, 1 a cookie,
    * 2 a query parameter. */
  datatype GlobalParamRow = GlobalParamRow(
    param_id: nat, project_id: nat, father_type: int, param_name: string,
    param_type: int, param_value: ParamValue, param_desc: string)

  /** A row of `global_variables`. */
  datatype VariableRow = VariableRow(
    variable_id: nat, project_id: nat, variable_name: string, variable_type: int,
    variable_value: ParamValue, variable_desc: string)

  /** A row of `project_env`. */
  datatype EnvRow = EnvRow(project_id: nat, env_type: int, env_baseurl: string)

  /* ---------- getGlobalInfo ---------- */

  /** A global parameter as `getGlobalInfo` lists it. */
  datatype ParamView = ParamView(param_id: nat, param_name: string, param_type: int, param_value: ParamValue, param_desc: string)

  /** One element of the `global_params` reply: a `father_type` and its parameters. */
  datatype ParamGroupView = ParamGroupView(group_type: int, params_list: seq<ParamView>)

  /** `SELECT * FROM global_params WHERE project_id = ?`. */
  function ProjectParams(rows: seq<GlobalParamRow>, project: nat): (r: seq<GlobalParamRow>)
    ensures |r| <= |rows|
    ensures forall i :: 0 <= i < |r| ==> r[i].project_id == project
  {
    if |rows| == 0 then []
    else
      var p := rows[|rows| - 1];
      ProjectParams(rows[..|rows| - 1], project) + if p.project_id == project then [p] else []
  }

  /** `paramsSource.filter((item) => item.father_type === t)`. */
  function OfType(rows: seq<GlobalParamRow>, t: int): (r: seq<GlobalParamRow>)
    ensures |r| <= |rows|
    ensures forall i :: 0 <= i < |r| ==> r[i].father_type == t
  {
    if |rows| == 0 then []
    else
      var p := rows[|rows| - 1];
      OfType(rows[..|rows| - 1], t) + if p.father_type == t then [p] else []
  }

  /** The project's parameters are exactly the rows of that project. */
  lemma {:induction false} ProjectParamsMembers(rows: seq<GlobalParamRow>, project: nat)
    ensures forall p :: p in ProjectParams(rows, project) <==> p in rows && p.project_id == project
  {
    if |rows| > 0 {
      var front := rows[..|rows| - 1];
      ProjectParamsMembers(front, project);
      assert rows == front + [rows[|rows| - 1]];
    }
  }

  /** The parameters of type `t` are exactly the rows of that type. */
  lemma {:induction false} OfTypeMembers(rows: seq<GlobalParamRow>, t: int)
    ensures forall p :: p in OfType(rows, t) <==> p in rows && p.father_type == t
  {
    if |rows| > 0 {
      var front := rows[..|rows| - 1];
      OfTypeMembers(front, t);
      assert rows == front + [rows[|rows| - 1]];
    }
  }

  /** The listed fields of each row, in order. */
  function Views(rows: seq<GlobalParamRow>): (r: seq<ParamView>)
    ensures |r| == |rows|
    ensures forall i :: 0 <= i < |rows| ==>
      r[i] == ParamView(rows[i].param_id, rows[i].param_name, rows[i].param_type, rows[i].param_value, rows[i].param_desc)
  {
    if |rows| == 0 then []
    else
      var p := rows[|rows| - 1];
      Views(rows[..|rows| - 1]) + [ParamView(p.param_id, p.param_name, p.param_type, p.param_value, p.param_desc)]
  }

  /** The `global_params` part of `getGlobalInfo`: for `father_type` 0, 1
    * and 2 in that order, a group of the project's parameters of that type
    * when there is at least one. Parameters of any other type are not listed. */
  method GetGlobalParams(rows: seq<GlobalParamRow>, project: nat) returns (groups: seq<ParamGroupView>)
    ensures GroupedBelow(groups, ProjectParams(rows, project), 3)
  {
    var source := ProjectParams(rows, project);
    groups := [];
    for i := 0 to 3
      invariant GroupedBelow(groups, source, i)
    {
      var temp := OfType(source, i);
      GroupStep(groups, source, i);
      if |temp| > 0 {
        groups := groups + [ParamGroupView(i, Views(temp))];
      }
    }
  }

  /** `groups` is the reply for the types below `n`: each group has a type in
    * `0..n-1` and at least one parameter, the types strictly increase, a
    * type has a group exactly when `source` holds parameters of that type,
    * and a group lists those parameters in order. */
  predicate GroupedBelow(groups: seq<ParamGroupView>, source: seq<GlobalParamRow>, n: int) {
    && (forall g :: 0 <= g < |groups| ==> 0 <= groups[g].group_type < n && |groups[g].params_list| > 0)
    && (forall g, h :: 0 <= g < h < |groups| ==> groups[g].group_type < groups[h].group_type)
    && (forall t :: 0 <= t < n ==> (HasGroup(groups, t) <==> |OfType(source, t)| > 0))
    && (forall g :: 0 <= g < |groups| ==> groups[g].params_list == Views(OfType(source, groups[g].group_type)))
  }

  /** Some group of the reply has type `t`. */
  predicate HasGroup(groups: seq<ParamGroupView>, t: int) {
    exists g :: 0 <= g < |groups| && groups[g].group_type == t
  }

  /** One round of the loop over the types. */
  lemma GroupStep(groups: seq<ParamGroupView>, source: seq<GlobalParamRow>, i: int)
    requires 0 <= i && GroupedBelow(groups, source, i)
    ensures var temp := OfType(source, i);
      GroupedBelow(if |temp| > 0 then groups + [ParamGroupView(i, Views(temp))] else groups, source, i + 1)
  {
    if |OfType(source, i)| > 0 {
      OpenGroup(groups, source, i);
    } else {
      SkipType(groups, source, i);
    }
  }

  /** A type with parameters opens a group at the end of the reply. */
  lemma OpenGroup(groups: seq<ParamGroupView>, source: seq<GlobalParamRow>, i: int)
    requires 0 <= i && GroupedBelow(groups, source, i) && |OfType(source, i)| > 0
    ensures GroupedBelow(groups + [ParamGroupView(i, Views(OfType(source, i)))], source, i + 1)
  {
    var last := ParamGroupView(i, Views(OfType(source, i)));
    var after := groups + [last];
    OpenGroupBounds(groups, last, i);
    OpenGroupTypes(groups, last, i);
    OpenGroupLists(groups, source, i);
    forall t | 0 <= t < i + 1 ensures HasGroup(after, t) <==> |OfType(source, t)| > 0 {
      HasGroupSnoc(groups, last);
    }
  }

  /** The opened group keeps every type in range and every list non-empty. */
  lemma OpenGroupBounds(groups: seq<ParamGroupView>, last: ParamGroupView, i: int)
    requires 0 <= i && last.group_type == i && |last.params_list| > 0
    requires forall g :: 0 <= g < |groups| ==> 0 <= groups[g].group_type < i && |groups[g].params_list| > 0
    ensures forall g :: 0 <= g < |groups + [last]| ==>
      0 <= (groups + [last])[g].group_type < i + 1 && |(groups + [last])[g].params_list| > 0
  {
    var after := groups + [last];
    forall g | 0 <= g < |after| ensures 0 <= after[g].group_type < i + 1 && |after[g].params_list| > 0 {
      if g < |groups| {
        assert after[g] == groups[g];
      }
    }
  }

  /** The opened group keeps the types strictly increasing. */
  lemma OpenGroupTypes(groups: seq<ParamGroupView>, last: ParamGroupView, i: int)
    requires last.group_type == i
    requires forall g :: 0 <= g < |groups| ==> groups[g].group_type < i
    requires forall g, h :: 0 <= g < h < |groups| ==> groups[g].group_type < groups[h].group_type
    ensures forall g, h :: 0 <= g < h < |groups + [last]| ==> (groups + [last])[g].group_type < (groups + [last])[h].group_type
  {
    var after := groups + [last];
    forall g, h | 0 <= g < h < |after| ensures after[g].group_type < after[h].group_type {
      assert after[g] == groups[g];
      if h < |groups| {
        assert after[h] == groups[h];
      }
    }
  }

  /** The opened group keeps every list equal to the parameters of its type. */
  lemma OpenGroupLists(groups: seq<ParamGroupView>, source: seq<GlobalParamRow>, i: int)
    requires forall g :: 0 <= g < |groups| ==> groups[g].params_list == Views(OfType(source, groups[g].group_type))
    ensures var after := groups + [ParamGroupView(i, Views(OfType(source, i)))];
      forall g :: 0 <= g < |after| ==> after[g].params_list == Views(OfType(source, after[g].group_type))
  {
    var after := groups + [ParamGroupView(i, Views(OfType(source, i)))];
    forall g | 0 <= g < |after| ensures after[g].params_list == Views(OfType(source, after[g].group_type)) {
      if g < |groups| {
        assert after[g] == groups[g];
      }
    }
  }

  /** A type without parameters adds nothing to the reply. */
  lemma SkipType(groups: seq<ParamGroupView>, source: seq<GlobalParamRow>, i: int)
    requires 0 <= i && GroupedBelow(groups, source, i) && |OfType(source, i)| == 0
    ensures GroupedBelow(groups, source, i + 1)
  {
    forall t | 0 <= t < i + 1 ensures HasGroup(groups, t) <==> |OfType(source, t)| > 0 {
      if t == i {
        assert !HasGroup(groups, i);
      }
    }
  }

  lemma HasGroupSnoc(groups: seq<ParamGroupView>, last: ParamGroupView)
    ensures forall t :: HasGroup(groups + [last], t) <==> HasGroup(groups, t) || last.group_type == t
  {
    forall t | HasGroup(groups, t) ensures HasGroup(groups + [last], t) {
      var g :| 0 <= g < |groups| && groups[g].group_type == t;
      assert (groups + [last])[g] == groups[g];
    }
    assert (groups + [last])[|groups|] == last;
  }

  /** A global variable as `getGlobalInfo` lists it. */
  datatype VariableView = VariableView(
    variable_id: nat, variable_name: string, variable_type: int, variable_value: ParamValue, variable_desc: string)

  /** `SELECT * FROM global_variables WHERE project_id = ?`, each row mapped
    * to its listed fields, in table order. */
  function ProjectVariables(rows: seq<VariableRow>, project: nat): (r: seq<VariableView>)
    ensures |r| <= |rows|
  {
    if |rows| == 0 then []
    else
      var v := rows[|rows| - 1];
      ProjectVariables(rows[..|rows| - 1], project)
        + if v.project_id == project
          then [VariableView(v.variable_id, v.variable_name, v.variable_type, v.variable_value, v.variable_desc)]
          else []
  }

  /** Every row of the project is listed, with its own fields. */
  lemma {:induction false} ProjectVariablesListed(rows: seq<VariableRow>, project: nat)
    ensures forall v :: v in rows && v.project_id == project ==>
      VariableView(v.variable_id, v.variable_name, v.variable_type, v.variable_value, v.variable_desc) in ProjectVariables(rows, project)
  {
    if |rows| > 0 {
      var front := rows[..|rows| - 1];
      ProjectVariablesListed(front, project);
      assert rows == front + [rows[|rows| - 1]];
    }
  }

  /** Only rows of the project are listed: every view is the view of one of them. */
  lemma {:induction false} ProjectVariablesOnly(rows: seq<VariableRow>, project: nat)
    ensures forall w :: w in ProjectVariables(rows, project) ==>
      exists v :: v in rows && v.project_id == project
        && w == VariableView(v.variable_id, v.variable_name, v.variable_type, v.variable_value, v.variable_desc)
  {
    if |rows| > 0 {
      var front := rows[..|rows| - 1];
      ProjectVariablesOnly(front, project);
      assert rows == front + [rows[|rows| - 1]];
    }
  }

  /** A variable id that no row carries is never listed. */
  lemma {:induction false} AbsentVariableNotListed(rows: seq<VariableRow>, project: nat, id: nat)
    requires forall i :: 0 <= i < |rows| ==> rows[i].variable_id != id
    ensures forall w :: w in ProjectVariables(rows, project) ==> w.variable_id != id
  {
    if |rows| > 0 {
      var front := rows[..|rows| - 1];
      assert forall i :: 0 <= i < |front| ==> front[i] == rows[i];
      AbsentVariableNotListed(front, project, id);
    }
  }

  /** `SELECT env_type, env_baseurl FROM project_env WHERE project_id = ?`. */
  function ProjectEnvs(envs: seq<EnvRow>, project: nat): (r: seq<EnvItem>)
    ensures |r| <= |envs|
  {
    if |envs| == 0 then []
    else
      var e := envs[|envs| - 1];
      ProjectEnvs(envs[..|envs| - 1], project) + if e.project_id == project then [EnvItem(e.env_type, e.env_baseurl)] else []
  }

  /** Every environment of the project is listed with its type and url. */
  lemma {:induction false} ProjectEnvsListed(envs: seq<EnvRow>, project: nat)
    ensures forall e :: e in envs && e.project_id == project ==> EnvItem(e.env_type, e.env_baseurl) in ProjectEnvs(envs, project)
  {
    if |envs| > 0 {
      var front := envs[..|envs| - 1];
      ProjectEnvsListed(front, project);
      assert envs == front + [envs[|envs| - 1]];
    }
  }

  /** Only environments of the project are listed. */
  lemma {:induction false} ProjectEnvsOnly(envs: seq<EnvRow>, project: nat)
    ensures forall x :: x in ProjectEnvs(envs, project) ==>
      exists e :: e in envs && e.project_id == project && x == EnvItem(e.env_type, e.env_baseurl)
  {
    if |envs| > 0 {
      var front := envs[..|envs| - 1];
      ProjectEnvsOnly(front, project);
      assert envs == front + [envs[|envs| - 1]];
    }
  }

  /** An environment list with the url of type `item.env_type` replaced. */
  function WithUrl(list: seq<EnvItem>, item: EnvItem): (r: seq<EnvItem>)
    ensures |r| == |list|
    ensures forall i :: 0 <= i < |list| ==> r[i].env_type == list[i].env_type
  {
    if |list| == 0 then []
    else
      var e := list[|list| - 1];
      WithUrl(list[..|list| - 1], item) + [if e.env_type == item.env_type then e.(env_baseurl := item.env_baseurl) else e]
  }

  /** After the base url of an environment type of the project is updated,
    * the project's environment list is the old one with that url replaced. */
  lemma {:induction false} UpdatedEnvListed(envs: seq<EnvRow>, project: nat, item: EnvItem)
    ensures ProjectEnvs(UpdateEnv(envs, project, item), project) == WithUrl(ProjectEnvs(envs, project), item)
  {
    if |envs| > 0 {
      var front, last := envs[..|envs| - 1], envs[|envs| - 1];
      UpdatedEnvListed(front, project, item);
      var after := UpdateEnv(envs, project, item);
      assert after[..|envs| - 1] == UpdateEnv(front, project, item);
      var listed := ProjectEnvs(front, project);
      if last.project_id == project {
        var y := EnvItem(last.env_type, last.env_baseurl);
        var u := after[|envs| - 1];
        assert u == if last.env_type == item.env_type then last.(env_baseurl := item.env_baseurl) else last;
        assert ProjectEnvs(after, project) == ProjectEnvs(UpdateEnv(front, project, item), project) + [EnvItem(u.env_type, u.env_baseurl)];
        assert ProjectEnvs(envs, project) == listed + [y];
        assert (listed + [y])[..|listed|] == listed;
        var z := if y.env_type == item.env_type then y.(env_baseurl := item.env_baseurl) else y;
        assert WithUrl(listed + [y], item) == WithUrl(listed, item) + [z];
        assert EnvItem(u.env_type, u.env_baseurl) == z;
        calc {
          ProjectEnvs(after, project);
          ProjectEnvs(UpdateEnv(front, project, item), project) + [z];
          WithUrl(listed, item) + [z];
          WithUrl(ProjectEnvs(envs, project), item);
        }
      } else {
        assert after[|envs| - 1].project_id != project;
        assert ProjectEnvs(after, project) == ProjectEnvs(UpdateEnv(front, project, item), project);
        assert ProjectEnvs(envs, project) == listed;
      }
    }
  }

  /** The updated list shows the new url for the updated type and every
    * other entry as before. */
  lemma {:induction false} WithUrlEntries(list: seq<EnvItem>, item: EnvItem, i: nat)
    requires i < |list|
    ensures WithUrl(list, item)[i] == if list[i].env_type == item.env_type then list[i].(env_baseurl := item.env_baseurl) else list[i]
  {
    if i < |list| - 1 {
      WithUrlEntries(list[..|list| - 1], item, i);
    }
  }

  /** `getGlobalInfo`: the grouped parameters, the variables and the
    * environments of the project. */
  method GetGlobalInfo(params: seq<GlobalParamRow>, variables: seq<VariableRow>, envs: seq<EnvRow>, project: nat)
    returns (global_params: seq<ParamGroupView>, global_variables: seq<VariableView>, env_list: seq<EnvItem>)
    ensures GroupedBelow(global_params, ProjectParams(params, project), 3)
    ensures global_variables == ProjectVariables(variables, project)
    ensures forall w :: w in global_variables <==>
      exists v :: v in variables && v.project_id == project
        && w == VariableView(v.variable_id, v.variable_name, v.variable_type, v.variable_value, v.variable_desc)
    ensures env_list == ProjectEnvs(envs, project)
    ensures forall x :: x in env_list <==> exists e :: e in envs && e.project_id == project && x == EnvItem(e.env_type, e.env_baseurl)
  {
    global_params := GetGlobalParams(params, project);
    global_variables := ProjectVariables(variables, project);
    env_list := ProjectEnvs(envs, project);
    ProjectVariablesListed(variables, project);
    ProjectVariablesOnly(variables, project);
    ProjectEnvsListed(envs, project);
    ProjectEnvsOnly(envs, project);
  }

  /* ---------- updateGlobalInfo: the three statements ---------- */

  /** An element of a `params_list` in the update request. */
  datatype ParamItem = ParamItem(
    param_id: nat, param_name: string, param_type: int, param_value: ParamValue,
    param_desc: string, param_action_type: int)

  /** An element of `global_params` in the update request. */
  datatype ParamItemGroup = ParamItemGroup(group_type: int, params_list: seq<ParamItem>)

  /** An element of `global_variables` in the update request. */
  datatype VariableItem = VariableItem(
    variable_id: nat, variable_name: string, variable_type: int, variable_value: ParamValue,
    variable_desc: string, variable_action_type: int)

  /** An element of `env_list` in the update request. */
  datatype EnvItem = EnvItem(env_type: int, env_baseurl: string)

  /** `global_params` with its auto-increment counter. */
  datatype ParamTable = ParamTable(rows: seq<GlobalParamRow>, next: nat)

  /** `global_variables` with its auto-increment counter. */
  datatype VariableTable = VariableTable(rows: seq<VariableRow>, next: nat)

  /** `UPDATE global_params SET name, type, desc, value WHERE param_id = ?`:
    * the row with the item's id takes the item's fields and keeps its project
    * and `father_type`; every other row is unchanged. */
  function UpdateParam(rows: seq<GlobalParamRow>, item: ParamItem): (r: seq<GlobalParamRow>)
    ensures |r| == |rows|
    ensures forall i :: 0 <= i < |rows| ==>
      r[i] == if rows[i].param_id == item.param_id
              then rows[i].(param_name := item.param_name, param_type := item.param_type,
                            param_desc := item.param_desc, param_value := item.param_value)
              else rows[i]
  {
    if |rows| == 0 then []
    else
      var p := rows[|rows| - 1];
      UpdateParam(rows[..|rows| - 1], item)
        + [if p.param_id == item.param_id
           then p.(param_name := item.param_name, param_type := item.param_type,
                   param_desc := item.param_desc, param_value := item.param_value)
           else p]
  }

  /** `DELETE FROM global_params WHERE param_id = ?`: the row with that id is
    * gone, the others stay in order. */
  function DeleteParam(rows: seq<GlobalParamRow>, id: nat): (r: seq<GlobalParamRow>)
    ensures |r| <= |rows|
    ensures forall i :: 0 <= i < |r| ==> r[i].param_id != id
  {
    if |rows| == 0 then []
    else
      var p := rows[|rows| - 1];
      DeleteParam(rows[..|rows| - 1], id) + if p.param_id != id then [p] else []
  }

  /** The delete keeps exactly the rows whose id is not `id`. */
  lemma {:induction false} DeleteParamMembers(rows: seq<GlobalParamRow>, id: nat)
    ensures forall p :: p in DeleteParam(rows, id) <==> p in rows && p.param_id != id
  {
    if |rows| > 0 {
      var front := rows[..|rows| - 1];
      DeleteParamMembers(front, id);
      assert rows == front + [rows[|rows| - 1]];
    }
  }

  /** One parameter item of the update: action 0 updates the row with its
    * id, action 1 inserts it into the project under the group's type with a
    * fresh id, and any other action deletes the row with its id. The update
    * and the delete match on the id alone, whatever the row's project. */
  function ApplyParamItem(t: ParamTable, project: nat, group_type: int, item: ParamItem): (r: ParamTable)
    ensures item.param_action_type == 1 ==> r.next == t.next + 1 && |r.rows| == |t.rows| + 1
    ensures item.param_action_type != 1 ==> r.next == t.next && |r.rows| <= |t.rows|
  {
    if item.param_action_type == 0 then t.(rows := UpdateParam(t.rows, item))
    else if item.param_action_type == 1 then
      ParamTable(t.rows + [GlobalParamRow(t.next, project, group_type, item.param_name, item.param_type,
                                          item.param_value, item.param_desc)], t.next + 1)
    else t.(rows := DeleteParam(t.rows, item.param_id))
  }

  /** One group's items in order; only inserts spend ids. */
  function ApplyParamItems(t: ParamTable, project: nat, group_type: int, items: seq<ParamItem>): (r: ParamTable)
    ensures t.next <= r.next <= t.next + |items|
  {
    if |items| == 0 then t
    else ApplyParamItem(ApplyParamItems(t, project, group_type, items[..|items| - 1]), project, group_type, items[|items| - 1])
  }

  /** The `global_params` loop: the groups in order, each group's items in order. */
  function ApplyParamGroups(t: ParamTable, project: nat, groups: seq<ParamItemGroup>): (r: ParamTable)
    ensures t.next <= r.next
  {
    if |groups| == 0 then t
    else
      var g := groups[|groups| - 1];
      ApplyParamItems(ApplyParamGroups(t, project, groups[..|groups| - 1]), project, g.group_type, g.params_list)
  }

  /** `UPDATE global_variables SET ... WHERE variable_id = ?`. */
  function UpdateVariable(rows: seq<VariableRow>, item: VariableItem): (r: seq<VariableRow>)
    ensures |r| == |rows|
    ensures forall i :: 0 <= i < |rows| ==>
      r[i] == if rows[i].variable_id == item.variable_id
              then rows[i].(variable_name := item.variable_name, variable_type := item.variable_type,
                            variable_value := item.variable_value, variable_desc := item.variable_desc)
              else rows[i]
  {
    if |rows| == 0 then []
    else
      var v := rows[|rows| - 1];
      UpdateVariable(rows[..|rows| - 1], item)
        + [if v.variable_id == item.variable_id
           then v.(variable_name := item.variable_name, variable_type := item.variable_type,
                   variable_value := item.variable_value, variable_desc := item.variable_desc)
           else v]
  }

  /** `DELETE FROM global_variables WHERE variable_id = ?`. */
  function DeleteVariable(rows: seq<VariableRow>, id: nat): (r: seq<VariableRow>)
    ensures |r| <= |rows|
    ensures forall v :: v in r <==> v in rows && v.variable_id != id
  {
    if |rows| == 0 then []
    else
      var v := rows[|rows| - 1];
      DeleteVariable(rows[..|rows| - 1], id) + if v.variable_id != id then [v] else []
  }

  /** One variable item: action 0 updates, 1 inserts, anything else deletes. */
  function ApplyVariableItem(t: VariableTable, project: nat, item: VariableItem): (r: VariableTable)
    ensures item.variable_action_type == 1 ==> r.next == t.next + 1 && |r.rows| == |t.rows| + 1
    ensures item.variable_action_type != 1 ==> r.next == t.next && |r.rows| <= |t.rows|
  {
    if item.variable_action_type == 0 then t.(rows := UpdateVariable(t.rows, item))
    else if item.variable_action_type == 1 then
      VariableTable(t.rows + [VariableRow(t.next, project, item.variable_name, item.variable_type,
                                          item.variable_value, item.variable_desc)], t.next + 1)
    else t.(rows := DeleteVariable(t.rows, item.variable_id))
  }

  /** The variable items in order; only inserts spend ids. */
  function ApplyVariableItems(t: VariableTable, project: nat, items: seq<VariableItem>): (r: VariableTable)
    ensures t.next <= r.next <= t.next + |items|
  {
    if |items| == 0 then t
    else ApplyVariableItem(ApplyVariableItems(t, project, items[..|items| - 1]), project, items[|items| - 1])
  }

  /** `UPDATE project_env SET env_baseurl WHERE project_id = ? AND env_type = ?`. */
  function UpdateEnv(envs: seq<EnvRow>, project: nat, item: EnvItem): (r: seq<EnvRow>)
    ensures |r| == |envs|
    ensures forall i :: 0 <= i < |envs| ==>
      r[i] == if envs[i].project_id == project && envs[i].env_type == item.env_type
              then envs[i].(env_baseurl := item.env_baseurl) else envs[i]
  {
    if |envs| == 0 then []
    else
      var e := envs[|envs| - 1];
      UpdateEnv(envs[..|envs| - 1], project, item)
        + [if e.project_id == project && e.env_type == item.env_type then e.(env_baseurl := item.env_baseurl) else e]
  }

  /** The env items in order. */
  function UpdateEnvs(envs: seq<EnvRow>, project: nat, items: seq<EnvItem>): (r: seq<EnvRow>)
    ensures |r| == |envs|
    ensures forall i :: 0 <= i < |envs| ==> r[i].project_id == envs[i].project_id && r[i].env_type == envs[i].env_type
    ensures forall i :: 0 <= i < |envs| && envs[i].project_id != project ==> r[i] == envs[i]
  {
    if |items| == 0 then envs
    else UpdateEnv(UpdateEnvs(envs, project, items[..|items| - 1]), project, items[|items| - 1])
  }

  /* ---------- properties ---------- */

  /** Ids of a table lie below its counter. */
  predicate ParamIdsBelow(t: ParamTable) {
    forall i :: 0 <= i < |t.rows| ==> t.rows[i].param_id < t.next
  }

  /** Every parameter action keeps the ids below the counter. */
  lemma ParamItemKeepsIds(t: ParamTable, project: nat, group_type: int, item: ParamItem)
    requires ParamIdsBelow(t)
    ensures ParamIdsBelow(ApplyParamItem(t, project, group_type, item))
  {
    var r := ApplyParamItem(t, project, group_type, item);
    if item.param_action_type != 0 && item.param_action_type != 1 {
      DeleteParamMembers(t.rows, item.param_id);
      forall i | 0 <= i < |r.rows| ensures r.rows[i].param_id < r.next {
        assert r.rows[i] in r.rows;
      }
    }
  }

  lemma {:induction false} ParamGroupsKeepIds(t: ParamTable, project: nat, groups: seq<ParamItemGroup>)
    requires ParamIdsBelow(t)
    ensures ParamIdsBelow(ApplyParamGroups(t, project, groups))
  {
    if |groups| > 0 {
      ParamGroupsKeepIds(t, project, groups[..|groups| - 1]);
      var g := groups[|groups| - 1];
      ParamItemsKeepIds(ApplyParamGroups(t, project, groups[..|groups| - 1]), project, g.group_type, g.params_list);
    }
  }

  lemma {:induction false} ParamItemsKeepIds(t: ParamTable, project: nat, group_type: int, items: seq<ParamItem>)
    requires ParamIdsBelow(t)
    ensures ParamIdsBelow(ApplyParamItems(t, project, group_type, items))
  {
    if |items| > 0 {
      ParamItemsKeepIds(t, project, group_type, items[..|items| - 1]);
      ParamItemKeepsIds(ApplyParamItems(t, project, group_type, items[..|items| - 1]), project, group_type, items[|items| - 1]);
    }
  }

  /** Inserting a parameter and then deleting the id it was given restores
    * the table's rows. */
  lemma InsertThenDelete(t: ParamTable, project: nat, group_type: int, item: ParamItem, undo: ParamItem)
    requires ParamIdsBelow(t)
    requires item.param_action_type == 1
    requires undo.param_action_type !in {0, 1} && undo.param_id == t.next
    ensures ApplyParamItem(ApplyParamItem(t, project, group_type, item), project, group_type, undo).rows == t.rows
  {
    var added := ApplyParamItem(t, project, group_type, item).rows;
    assert added[..|added| - 1] == t.rows;
    DeleteAbsentParam(t.rows, t.next);
  }

  lemma {:induction false} DeleteAbsentParam(rows: seq<GlobalParamRow>, id: nat)
    requires forall i :: 0 <= i < |rows| ==> rows[i].param_id != id
    ensures DeleteParam(rows, id) == rows
  {
    if |rows| > 0 {
      var front, last := rows[..|rows| - 1], rows[|rows| - 1];
      forall i | 0 <= i < |front| ensures front[i].param_id != id {
        assert front[i] == rows[i];
      }
      DeleteAbsentParam(front, id);
      calc {
        DeleteParam(rows, id);
        DeleteParam(front, id) + [last];
        front + [last];
        { assert front + [last] == rows; }
        rows;
      }
    }
  }

  /** An update of an id no row has changes nothing; an update carries the
    * same fields again is idempotent. */
  lemma UpdateParamIdempotent(rows: seq<GlobalParamRow>, item: ParamItem)
    ensures UpdateParam(UpdateParam(rows, item), item) == UpdateParam(rows, item)
    ensures (forall i :: 0 <= i < |rows| ==> rows[i].param_id != item.param_id) ==> UpdateParam(rows, item) == rows
  {
  }

  /** A parameter inserted under a header, cookie or query group is what
    * `getGlobalInfo` lists for that type afterwards. */
  lemma InsertedParamListed(t: ParamTable, project: nat, group_type: int, item: ParamItem)
    requires item.param_action_type == 1
    ensures var row := GlobalParamRow(t.next, project, group_type, item.param_name, item.param_type,
                                      item.param_value, item.param_desc);
            row in OfType(ProjectParams(ApplyParamItem(t, project, group_type, item).rows, project), group_type)
  {
    var row := GlobalParamRow(t.next, project, group_type, item.param_name, item.param_type,
                              item.param_value, item.param_desc);
    assert row in ApplyParamItem(t, project, group_type, item).rows;
  }

  /** A variable inserted into the project is what `getGlobalInfo` lists for
    * it afterwards, under the id the insert gave it. */
  lemma InsertedVariableListed(t: VariableTable, project: nat, item: VariableItem)
    requires item.variable_action_type == 1
    ensures VariableView(t.next, item.variable_name, item.variable_type, item.variable_value, item.variable_desc)
      in ProjectVariables(ApplyVariableItem(t, project, item).rows, project)
  {
    var rows := ApplyVariableItem(t, project, item).rows;
    assert rows[..|rows| - 1] == t.rows;
  }

  /** After a variable delete no listed variable has that id. */
  lemma DeletedVariableNotListed(t: VariableTable, project: nat, item: VariableItem, w: VariableView)
    requires item.variable_action_type !in {0, 1}
    requires w in ProjectVariables(ApplyVariableItem(t, project, item).rows, project)
    ensures w.variable_id != item.variable_id
  {
    var rows := ApplyVariableItem(t, project, item).rows;
    forall i | 0 <= i < |rows| ensures rows[i].variable_id != item.variable_id {
      assert rows[i] in rows;
    }
    AbsentVariableNotListed(rows, project, item.variable_id);
  }

  /** After a delete no row with that id is listed. */
  lemma DeletedParamNotListed(t: ParamTable, project: nat, group_type: int, item: ParamItem, p: GlobalParamRow)
    requires item.param_action_type !in {0, 1}
    requires p in ApplyParamItem(t, project, group_type, item).rows
    ensures p.param_id != item.param_id
  {
    DeleteParamMembers(t.rows, item.param_id);
  }

  /** The environments of other projects are never touched. */
  lemma {:induction false} EnvsOfOtherProjects(envs: seq<EnvRow>, project: nat, items: seq<EnvItem>, i: nat)
    requires i < |envs| && envs[i].project_id != project
    ensures |UpdateEnvs(envs, project, items)| == |envs| && UpdateEnvs(envs, project, items)[i] == envs[i]
  {
    if |items| > 0 {
      EnvsOfOtherProjects(envs, project, items[..|items| - 1], i);
    }
  }

  /* ---------- the imperative handler ---------- */

  /** The tables `updateGlobalInfo` writes. */
  class GlobalStore {
    var params: seq<GlobalParamRow>
    var next_param: nat
    var variables: seq<VariableRow>
    var next_variable: nat
    var envs: seq<EnvRow>

    function Params(): ParamTable
      reads this
    {
      ParamTable(params, next_param)
    }

    function Variables(): VariableTable
      reads this
    {
      VariableTable(variables, next_variable)
    }

    constructor (envs: seq<EnvRow>)
      ensures params == [] && variables == [] && this.envs == envs
      ensures next_param == 0 && next_variable == 0
    {
      params, variables, this.envs := [], [], envs;
      next_param, next_variable := 0, 0;
    }

    /** The statement for one parameter item. */
    method ApplyParam(project: nat, group_type: int, item: ParamItem)
      modifies this
      ensures Params() == ApplyParamItem(old(Params()), project, group_type, item)
      ensures variables == old(variables) && next_variable == old(next_variable) && envs == old(envs)
    {
      if item.param_action_type == 0 {
        params := UpdateParam(params, item);
      } else if item.param_action_type == 1 {
        params := params + [GlobalParamRow(next_param, project, group_type, item.param_name, item.param_type,
                                           item.param_value, item.param_desc)];
        next_param := next_param + 1;
      } else {
        params := DeleteParam(params, item.param_id);
      }
    }

    /** The statement for one variable item. */
    method ApplyVariable(project: nat, item: VariableItem)
      modifies this
      ensures Variables() == ApplyVariableItem(old(Variables()), project, item)
      ensures params == old(params) && next_param == old(next_param) && envs == old(envs)
    {
      if item.variable_action_type == 0 {
        variables := UpdateVariable(variables, item);
      } else if item.variable_action_type == 1 {
        variables := variables + [VariableRow(next_variable, project, item.variable_name, item.variable_type,
                                              item.variable_value, item.variable_desc)];
        next_variable := next_variable + 1;
      } else {
        variables := DeleteVariable(variables, item.variable_id);
      }
    }

    /** Step 1: every item of every group, in order. */
    method UpdateParams(project: nat, groups: seq<ParamItemGroup>)
      modifies this
      ensures Params() == ApplyParamGroups(old(Params()), project, groups)
      ensures variables == old(variables) && next_variable == old(next_variable) && envs == old(envs)
    {
      for i := 0 to |groups|
        invariant Params() == ApplyParamGroups(old(Params()), project, groups[..i])
        invariant variables == old(variables) && next_variable == old(next_variable) && envs == old(envs)
      {
        assert groups[..i + 1][..i] == groups[..i];
        ghost var before := Params();
        var list := groups[i].params_list;
        for j := 0 to |list|
          invariant Params() == ApplyParamItems(before, project, groups[i].group_type, list[..j])
          invariant variables == old(variables) && next_variable == old(next_variable) && envs == old(envs)
        {
          assert list[..j + 1][..j] == list[..j];
          ApplyParam(project, groups[i].group_type, list[j]);
        }
        assert list[..|list|] == list;
      }
      assert groups[..|groups|] == groups;
    }

    /** Step 2: every variable item, in order. */
    method UpdateVariables(project: nat, items: seq<VariableItem>)
      modifies this
      ensures Variables() == ApplyVariableItems(old(Variables()), project, items)
      ensures params == old(params) && next_param == old(next_param) && envs == old(envs)
    {
      for i := 0 to |items|
        invariant Variables() == ApplyVariableItems(old(Variables()), project, items[..i])
        invariant params == old(params) && next_param == old(next_param) && envs == old(envs)
      {
        assert items[..i + 1][..i] == items[..i];
        ApplyVariable(project, items[i]);
      }
      assert items[..|items|] == items;
    }

    /** Step 3: the base url of every listed environment type of the project. */
    method UpdateEnvList(project: nat, items: seq<EnvItem>)
      modifies this
      ensures envs == UpdateEnvs(old(envs), project, items)
      ensures params == old(params) && next_param == old(next_param)
      ensures variables == old(variables) && next_variable == old(next_variable)
    {
      for i := 0 to |items|
        invariant envs == UpdateEnvs(old(envs), project, items[..i])
        invariant params == old(params) && next_param == old(next_param)
        invariant variables == old(variables) && next_variable == old(next_variable)
      {
        assert items[..i + 1][..i] == items[..i];
        envs := UpdateEnv(envs, project, items[i]);
      }
      assert items[..|items|] == items;
    }

    /** `updateGlobalInfo`: each part of the request that is present is
      * applied, parameters first, then variables, then environments; the
      * reply carries the project id. */
    method UpdateGlobalInfo(project: nat, global_params: Option<seq<ParamItemGroup>>,
                            global_variables: Option<seq<VariableItem>>, env_list: Option<seq<EnvItem>>)
      returns (result: nat)
      modifies this
      ensures Params() == if global_params.Some? then ApplyParamGroups(old(Params()), project, global_params.value) else old(Params())
      ensures Variables() == if global_variables.Some? then ApplyVariableItems(old(Variables()), project, global_variables.value) else old(Variables())
      ensures envs == if env_list.Some? then UpdateEnvs(old(envs), project, env_list.value) else old(envs)
      ensures result == project
    {
      if global_params.Some? {
        UpdateParams(project, global_params.value);
      }
      if global_variables.Some? {
        UpdateVariables(project, global_variables.value);
      }
      if env_list.Some? {
        UpdateEnvList(project, env_list.value);
      }
      result := project;
    }
  }
}
