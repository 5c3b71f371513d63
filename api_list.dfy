/** The tree `getApiList` (controller/projects/index.ts) returns: the
  * project's folders nested under the root folder, each folder followed by
  * the apis filed in it. */
module ApiList {
  import opened Wrappers
  import opened ApiTable

  /** A row of `dictionaries`; the root folder has no `father_id`. */
  datatype DictionaryRow = DictionaryRow(dictionary_id: nat, project_id: nat, dictionary_name: string, father_id: Option<nat>)

  /** The `type` of a tree node: `'dictionary'` for a folder, the api's
    * method for an api. */
  datatype NodeKind = Folder | Endpoint(api_method: string)

  /** An `ApiListItem`; `name` is its `label`. */
  datatype Node = Node(id: nat, name: string, kind: NodeKind, children: seq<Node>)

  /** `SELECT * FROM dictionaries WHERE project_id = ?`. */
  function ProjectFolders(dicts: seq<DictionaryRow>, project: nat): (r: seq<DictionaryRow>)
    ensures forall d :: d in r <==> d in dicts && d.project_id == project
  {
    if |dicts| == 0 then []
    else
      var d := dicts[|dicts| - 1];
      ProjectFolders(dicts[..|dicts| - 1], project) + if d.project_id == project then [d] else []
  }

  /** `dictionariesSource.find((item) => item.father_id === null)`. */
  function FindRoot(dicts: seq<DictionaryRow>): (r: Option<DictionaryRow>)
    ensures r.None? <==> forall i :: 0 <= i < |dicts| ==> dicts[i].father_id.Some?
    ensures r.Some? ==> exists i :: 0 <= i < |dicts| && dicts[i] == r.value && r.value.father_id.None?
                          && forall j :: 0 <= j < i ==> dicts[j].father_id.Some?
  {
    if |dicts| == 0 then None
    else if dicts[0].father_id.None? then Some(dicts[0])
    else
      var r := FindRoot(dicts[1..]);
      assert forall i :: 0 <= i < |dicts[1..]| ==> dicts[1..][i] == dicts[i + 1];
      if r.Some? then
        var i :| 0 <= i < |dicts[1..]| && dicts[1..][i] == r.value && r.value.father_id.None?
                 && forall j :: 0 <= j < i ==> dicts[1..][j].father_id.Some?;
        assert dicts[i + 1] == r.value;
        r
      else r
  }

  /** The folders whose `father_id` is `father`, in table order. */
  function ChildrenOf(dicts: seq<DictionaryRow>, father: nat): (r: seq<DictionaryRow>)
    ensures |r| <= |dicts|
    ensures forall i :: 0 <= i < |r| ==> r[i].father_id == Some(father)
  {
    if |dicts| == 0 then []
    else
      var d := dicts[|dicts| - 1];
      ChildrenOf(dicts[..|dicts| - 1], father) + if d.father_id == Some(father) then [d] else []
  }

  /** Every child row of `father` is listed as often as the table holds it,
    * and no other row is. */
  lemma {:induction false} ChildrenOfCounts(dicts: seq<DictionaryRow>, father: nat, d: DictionaryRow)
    ensures multiset(ChildrenOf(dicts, father))[d] == if d.father_id == Some(father) then multiset(dicts)[d] else 0
  {
    if |dicts| > 0 {
      var front := dicts[..|dicts| - 1];
      ChildrenOfCounts(front, father, d);
      CountStep(dicts, front, dicts[|dicts| - 1], ChildrenOf(dicts, father), ChildrenOf(front, father), father, d);
    }
  }

  /** One step of the count: appending `last` to the table appends it to the
    * children exactly when it is a child of `father`. */
  lemma CountStep(all: seq<DictionaryRow>, front: seq<DictionaryRow>, last: DictionaryRow,
                  kidsAll: seq<DictionaryRow>, kids: seq<DictionaryRow>, father: nat, d: DictionaryRow)
    requires all == front + [last]
    requires kidsAll == kids + if last.father_id == Some(father) then [last] else []
    requires multiset(kids)[d] == if d.father_id == Some(father) then multiset(front)[d] else 0
    ensures multiset(kidsAll)[d] == if d.father_id == Some(father) then multiset(all)[d] else 0
  {
  }

  /** `buildDicTree(father)`: a folder node for every child folder, each
    * holding its own subtree. On a cycle of `father_id` links the source's
    * recursion overflows the stack, and `getApiList`'s `catch` answers 500;
    * the model spends one unit of `fuel` per level and answers `None` when it
    * runs out (`CycleNeverBuilds`). Such a cycle below the root needs a folder
    * id held by two rows; with ids as keys the fuel never runs out
    * (`UniqueIdsBuild`). */
  function BuildDicTree(dicts: seq<DictionaryRow>, father: nat, fuel: nat): (r: Option<seq<Node>>)
    decreases fuel, 0, 0
    ensures r.Some? ==> |r.value| == |ChildrenOf(dicts, father)|
  {
    if fuel == 0 then None else BuildEach(dicts, ChildrenOf(dicts, father), fuel - 1)
  }

  /** The folder nodes of `kids`, each with the subtree built under it. */
  function BuildEach(dicts: seq<DictionaryRow>, kids: seq<DictionaryRow>, fuel: nat): (r: Option<seq<Node>>)
    decreases fuel, 1, |kids|
    ensures r.Some? ==> |r.value| == |kids|
  {
    if |kids| == 0 then Some([])
    else
      var d := kids[|kids| - 1];
      var front := BuildEach(dicts, kids[..|kids| - 1], fuel);
      var sub := BuildDicTree(dicts, d.dictionary_id, fuel);
      if front.Some? && sub.Some? then Some(front.value + [Node(d.dictionary_id, d.dictionary_name, Folder, sub.value)])
      else None
  }

  /** The forest of `kids` is built exactly when every subtree is, and then
    * its i-th node is the folder node of the i-th row over that row's subtree. */
  lemma BuildEachNodes(dicts: seq<DictionaryRow>, kids: seq<DictionaryRow>, fuel: nat)
    ensures var r := BuildEach(dicts, kids, fuel);
      && (r.Some? <==> forall i :: 0 <= i < |kids| ==> BuildDicTree(dicts, kids[i].dictionary_id, fuel).Some?)
      && (r.Some? ==> forall i :: 0 <= i < |kids| ==> r.value[i] == FolderNode(dicts, kids[i], fuel))
  {
    BuildEachDefined(dicts, kids, fuel);
    if BuildEach(dicts, kids, fuel).Some? {
      BuildEachValues(dicts, kids, fuel);
    }
  }

  /** The node `buildDicTree` makes for the folder row `d`, when its subtree ends. */
  function FolderNode(dicts: seq<DictionaryRow>, d: DictionaryRow, fuel: nat): Node {
    var sub := BuildDicTree(dicts, d.dictionary_id, fuel);
    Node(d.dictionary_id, d.dictionary_name, Folder, if sub.Some? then sub.value else [])
  }

  lemma {:induction false} BuildEachDefined(dicts: seq<DictionaryRow>, kids: seq<DictionaryRow>, fuel: nat)
    ensures BuildEach(dicts, kids, fuel).Some? <==> forall i :: 0 <= i < |kids| ==> BuildDicTree(dicts, kids[i].dictionary_id, fuel).Some?
  {
    if BuildEach(dicts, kids, fuel).Some? {
      BuildSomeEach(dicts, kids, fuel);
    } else if forall i :: 0 <= i < |kids| ==> BuildDicTree(dicts, kids[i].dictionary_id, fuel).Some? {
      BuildAllSome(dicts, kids, fuel);
    }
  }

  /** A built forest has every subtree built. */
  lemma {:induction false} BuildSomeEach(dicts: seq<DictionaryRow>, kids: seq<DictionaryRow>, fuel: nat)
    requires BuildEach(dicts, kids, fuel).Some?
    ensures forall i :: 0 <= i < |kids| ==> BuildDicTree(dicts, kids[i].dictionary_id, fuel).Some?
  {
    if |kids| > 0 {
      var init := kids[..|kids| - 1];
      BuildEachLast(dicts, kids, fuel);
      BuildSomeEach(dicts, init, fuel);
      forall i | 0 <= i < |init| ensures BuildDicTree(dicts, kids[i].dictionary_id, fuel).Some? {
        assert init[i] == kids[i];
      }
    }
  }

  /** A built forest has its front built and its last subtree built. */
  lemma BuildEachLast(dicts: seq<DictionaryRow>, kids: seq<DictionaryRow>, fuel: nat)
    requires |kids| > 0 && BuildEach(dicts, kids, fuel).Some?
    ensures BuildEach(dicts, kids[..|kids| - 1], fuel).Some? && BuildDicTree(dicts, kids[|kids| - 1].dictionary_id, fuel).Some?
  {
  }

  /** When every subtree is built, so is the forest. */
  lemma {:induction false} BuildAllSome(dicts: seq<DictionaryRow>, kids: seq<DictionaryRow>, fuel: nat)
    requires forall i :: 0 <= i < |kids| ==> BuildDicTree(dicts, kids[i].dictionary_id, fuel).Some?
    ensures BuildEach(dicts, kids, fuel).Some?
  {
    if |kids| > 0 {
      var init := kids[..|kids| - 1];
      forall i | 0 <= i < |init| ensures BuildDicTree(dicts, init[i].dictionary_id, fuel).Some? {
        assert init[i] == kids[i];
      }
      BuildAllSome(dicts, init, fuel);
      assert BuildDicTree(dicts, kids[|kids| - 1].dictionary_id, fuel).Some?;
    }
  }

  lemma {:induction false} BuildEachValues(dicts: seq<DictionaryRow>, kids: seq<DictionaryRow>, fuel: nat)
    requires BuildEach(dicts, kids, fuel).Some?
    ensures forall i :: 0 <= i < |kids| ==> BuildEach(dicts, kids, fuel).value[i] == FolderNode(dicts, kids[i], fuel)
  {
    if |kids| > 0 {
      var init := kids[..|kids| - 1];
      var front := BuildEach(dicts, init, fuel);
      var d := kids[|kids| - 1];
      assert front.Some? && BuildDicTree(dicts, d.dictionary_id, fuel).Some?;
      BuildEachValues(dicts, init, fuel);
      var r := BuildEach(dicts, kids, fuel).value;
      assert r == front.value + [FolderNode(dicts, d, fuel)];
      forall i | 0 <= i < |kids| ensures r[i] == FolderNode(dicts, kids[i], fuel) {
        if i < |init| {
          calc {
            r[i];
            front.value[i];
            FolderNode(dicts, init[i], fuel);
            { assert init[i] == kids[i]; }
            FolderNode(dicts, kids[i], fuel);
          }
        } else {
          assert i == |init| && kids[i] == d;
        }
      }
    }
  }

  /** The api nodes of folder `folder`: `SELECT * FROM apis WHERE dictionary_id = ?`,
    * in table order. The query filters on the folder alone, so deleted apis
    * are listed too. */
  function ApiNodes(apis: seq<ApiRow>, folder: nat): (r: seq<Node>)
    ensures forall n :: n in r ==> n.kind.Endpoint? && n.children == []
    ensures forall a :: a in apis && a.dictionary_id == folder ==> ApiNodeOf(a) in r
    ensures forall n :: n in r ==> exists a :: a in apis && a.dictionary_id == folder && n == ApiNodeOf(a)
  {
    FiledMembers(apis, folder);
    Filed(apis, folder)
  }

  /** The rows of `apis` filed under `folder`, as nodes, in table order. */
  function Filed(apis: seq<ApiRow>, folder: nat): seq<Node> {
    if |apis| == 0 then []
    else
      var a := apis[|apis| - 1];
      Filed(apis[..|apis| - 1], folder) + if a.dictionary_id == folder then [ApiNodeOf(a)] else []
  }

  /** `Filed` lists exactly the api nodes of the folder. */
  lemma {:induction false} FiledMembers(apis: seq<ApiRow>, folder: nat)
    ensures forall n :: n in Filed(apis, folder) ==> n.kind.Endpoint? && n.children == []
    ensures forall a :: a in apis && a.dictionary_id == folder ==> ApiNodeOf(a) in Filed(apis, folder)
    ensures forall n :: n in Filed(apis, folder) ==> exists a :: a in apis && a.dictionary_id == folder && n == ApiNodeOf(a)
  {
    if |apis| > 0 {
      var front := apis[..|apis| - 1];
      var a := apis[|apis| - 1];
      FiledMembers(front, folder);
      assert apis == front + [a];
    }
  }

  /** More fuel never changes a tree that was built: once the recursion
    * ends, the bound is no longer visible. */
  lemma {:induction false} MoreFuelSameTree(dicts: seq<DictionaryRow>, father: nat, fuel: nat)
    requires BuildDicTree(dicts, father, fuel).Some?
    ensures BuildDicTree(dicts, father, fuel + 1) == BuildDicTree(dicts, father, fuel)
    decreases fuel, 0, 0
  {
    MoreFuelSameForest(dicts, ChildrenOf(dicts, father), fuel - 1);
  }

  lemma {:induction false} MoreFuelSameForest(dicts: seq<DictionaryRow>, kids: seq<DictionaryRow>, fuel: nat)
    requires BuildEach(dicts, kids, fuel).Some?
    ensures BuildEach(dicts, kids, fuel + 1) == BuildEach(dicts, kids, fuel)
    decreases fuel, 1, |kids|
  {
    if |kids| > 0 {
      var init := kids[..|kids| - 1];
      var d := kids[|kids| - 1];
      assert BuildEach(dicts, init, fuel).Some? && BuildDicTree(dicts, d.dictionary_id, fuel).Some?;

      MoreFuelSameForest(dicts, init, fuel);
      MoreFuelSameTree(dicts, d.dictionary_id, fuel);
    }
  }

  /** The children of a built folder are exactly its child folders, in table
    * order: same count, and the i-th node is the i-th child row. */
  lemma ChildrenAreChildFolders(dicts: seq<DictionaryRow>, father: nat, fuel: nat)
    requires BuildDicTree(dicts, father, fuel).Some?
    ensures var kids := ChildrenOf(dicts, father);
      var nodes := BuildDicTree(dicts, father, fuel).value;
      && |nodes| == |kids|
      && forall i :: 0 <= i < |kids| ==> nodes[i].id == kids[i].dictionary_id && nodes[i].name == kids[i].dictionary_name
                                         && nodes[i].kind == Folder && kids[i].father_id == Some(father)
  {
    var kids := ChildrenOf(dicts, father);
    var nodes := BuildDicTree(dicts, father, fuel).value;
    assert BuildEach(dicts, kids, fuel - 1) == Some(nodes);
    BuildEachNodes(dicts, kids, fuel - 1);
    forall i | 0 <= i < |kids|
      ensures nodes[i].id == kids[i].dictionary_id && nodes[i].name == kids[i].dictionary_name && nodes[i].kind == Folder
    {
      assert nodes[i] == FolderNode(dicts, kids[i], fuel - 1);
    }
  }

  /* ---------- when the folder tree is built ---------- */

  /** A child row listed by `ChildrenOf` is a row of the table. */
  lemma {:induction false} ChildIsRow(dicts: seq<DictionaryRow>, father: nat, i: nat)
    requires i < |ChildrenOf(dicts, father)|
    ensures ChildrenOf(dicts, father)[i] in dicts
  {
    var kid := ChildrenOf(dicts, father)[i];
    ChildrenOfCounts(dicts, father, kid);
    assert kid in multiset(ChildrenOf(dicts, father));
  }

  /** Folder ids are keys: no two rows of the table share one, as no two
    * auto-increment ids do. */
  predicate UniqueIds(dicts: seq<DictionaryRow>) {
    forall a, b :: a in dicts && b in dicts && a.dictionary_id == b.dictionary_id ==> a == b
  }

  /** The folder ids of some rows. */
  function IdSet(s: seq<DictionaryRow>): (r: set<nat>)
    ensures forall d :: d in s ==> d.dictionary_id in r
  {
    set d | d in s :: d.dictionary_id
  }

  /** There are no more ids than rows. */
  lemma {:induction false} IdSetBound(s: seq<DictionaryRow>)
    ensures |IdSet(s)| <= |s|
  {
    if |s| > 0 {
      var front := s[..|s| - 1];
      IdSetBound(front);
      assert s == front + [s[|s| - 1]];
      assert IdSet(s) == IdSet(front) + {s[|s| - 1].dictionary_id};
    }
  }

  /** Rows with pairwise different ids have as many ids as rows. */
  lemma {:induction false} IdSetDistinct(s: seq<DictionaryRow>)
    requires forall j, k :: 0 <= j < k < |s| ==> s[j].dictionary_id != s[k].dictionary_id
    ensures |IdSet(s)| == |s|
  {
    if |s| > 0 {
      var front := s[..|s| - 1];
      var last := s[|s| - 1];
      IdSetDistinct(front);
      assert s == front + [last];
      assert IdSet(s) == IdSet(front) + {last.dictionary_id};
      assert last.dictionary_id !in IdSet(front);
    }
  }

  /** A subset is no larger than its superset. */
  lemma {:induction false} SubsetCard<T>(a: set<T>, b: set<T>)
    requires a <= b
    ensures |a| <= |b|
    decreases |b|
  {
    if a != {} {
      var x :| x in a;
      SubsetCard(a - {x}, b - {x});
    }
  }

  /** A chain of rows of the table, each a child of the one before it. */
  predicate Linked(dicts: seq<DictionaryRow>, ch: seq<DictionaryRow>) {
    && (forall i :: 0 <= i < |ch| ==> ch[i] in dicts)
    && (forall i :: 0 < i < |ch| ==> ch[i].father_id == Some(ch[i - 1].dictionary_id))
  }

  /** A folder not built within `fuel` levels has a child folder not built
    * within one level less. */
  lemma {:induction false} UnbuiltChild(dicts: seq<DictionaryRow>, x: nat, fuel: nat) returns (kid: DictionaryRow)
    requires fuel > 0 && BuildDicTree(dicts, x, fuel).None?
    ensures kid in dicts && kid.father_id == Some(x) && BuildDicTree(dicts, kid.dictionary_id, fuel - 1).None?
  {
    var kids := ChildrenOf(dicts, x);
    assert exists i :: 0 <= i < |kids| && BuildDicTree(dicts, kids[i].dictionary_id, fuel - 1).None? by {
      assert BuildEach(dicts, kids, fuel - 1).None?;
      BuildEachDefined(dicts, kids, fuel - 1);
    }
    var i :| 0 <= i < |kids| && BuildDicTree(dicts, kids[i].dictionary_id, fuel - 1).None?;
    kid := kids[i];
    ChildIsRow(dicts, x, i);
  }

  /** A row put on top of a chain headed by one of its children is a chain. */
  lemma {:induction false} LinkedCons(dicts: seq<DictionaryRow>, top: DictionaryRow, rest: seq<DictionaryRow>)
    requires top in dicts && Linked(dicts, rest) && |rest| > 0 && rest[0].father_id == Some(top.dictionary_id)
    ensures Linked(dicts, [top] + rest)
  {
    var ch := [top] + rest;
    forall j | 0 < j < |ch| ensures ch[j] in dicts && ch[j].father_id == Some(ch[j - 1].dictionary_id) {
      assert ch[j] == rest[j - 1];
      if j > 1 {
        assert ch[j - 1] == rest[j - 2];
      }
    }
  }

  /** A folder whose tree is not built within `fuel` levels heads a chain of
    * `fuel` folders below it. */
  lemma {:induction false} UnbuiltChain(dicts: seq<DictionaryRow>, top: DictionaryRow, fuel: nat) returns (ch: seq<DictionaryRow>)
    requires top in dicts && BuildDicTree(dicts, top.dictionary_id, fuel).None?
    ensures |ch| == fuel + 1 && ch[0] == top && Linked(dicts, ch)
    decreases fuel
  {
    if fuel == 0 {
      ch := [top];
    } else {
      var kid := UnbuiltChild(dicts, top.dictionary_id, fuel);
      var rest := UnbuiltChain(dicts, kid, fuel - 1);
      LinkedCons(dicts, top, rest);
      ch := [top] + rest;
    }
  }

  /** With ids as keys, a chain down from a root never meets an id twice:
    * the first repeat would give the root a father. */
  lemma {:induction false} ChainIdsDistinct(dicts: seq<DictionaryRow>, full: seq<DictionaryRow>, j: nat, k: nat)
    requires UniqueIds(dicts) && Linked(dicts, full) && |full| > 0 && full[0].father_id.None? && j < k < |full|
    ensures full[j].dictionary_id != full[k].dictionary_id
    decreases j
  {
    if full[j].dictionary_id == full[k].dictionary_id {
      assert full[j] in dicts && full[k] in dicts;
      assert full[j] == full[k];
      assert full[k].father_id == Some(full[k - 1].dictionary_id);
      if j > 0 {
        assert full[j].father_id == Some(full[j - 1].dictionary_id);
        ChainIdsDistinct(dicts, full, j - 1, k - 1);
      }
    }
  }

  /** With folder ids as keys, the tree under a root folder is always built
    * with the fuel `getApiList` gives it: a chain of `|dicts| + 1` folders
    * below the root would hold `|dicts| + 2` different ids. */
  lemma {:induction false} UniqueIdsBuild(dicts: seq<DictionaryRow>, root: DictionaryRow)
    requires UniqueIds(dicts) && root in dicts && root.father_id.None?
    ensures BuildDicTree(dicts, root.dictionary_id, |dicts| + 1).Some?
  {
    if BuildDicTree(dicts, root.dictionary_id, |dicts| + 1).None? {
      var full := UnbuiltChain(dicts, root, |dicts| + 1);
      forall j, k | 0 <= j < k < |full| ensures full[j].dictionary_id != full[k].dictionary_id {
        ChainIdsDistinct(dicts, full, j, k);
      }
      SubsetCard(IdSet(full), IdSet(dicts));
      IdSetDistinct(full);
      IdSetBound(dicts);
      assert false;
    }
  }

  /** A cycle of `father_id` links through the folder ids `ids`: `next`
    * sends each of them to a child folder whose id is among them too. */
  predicate Cyclic(dicts: seq<DictionaryRow>, ids: set<nat>, next: map<nat, DictionaryRow>) {
    && ids <= next.Keys
    && forall x {:trigger next[x]} :: x in ids && x in next ==>
         next[x] in dicts && next[x].father_id == Some(x) && next[x].dictionary_id in ids
  }

  /** A row whose father is `x` is among the children of `x`. */
  lemma {:induction false} IsChild(dicts: seq<DictionaryRow>, c: DictionaryRow, x: nat)
    requires c in dicts && c.father_id == Some(x)
    ensures c in ChildrenOf(dicts, x)
  {
    ChildrenOfCounts(dicts, x, c);
    assert c in multiset(ChildrenOf(dicts, x));
  }

  /** A folder with a child that is not built is not built either. */
  lemma {:induction false} BlockedChildBlocks(dicts: seq<DictionaryRow>, c: DictionaryRow, x: nat, fuel: nat)
    requires c in dicts && c.father_id == Some(x) && BuildDicTree(dicts, c.dictionary_id, fuel).None?
    ensures BuildDicTree(dicts, x, fuel + 1).None?
  {
    var kids := ChildrenOf(dicts, x);
    IsChild(dicts, c, x);
    var i :| 0 <= i < |kids| && kids[i] == c;
    BuildEachDefined(dicts, kids, fuel);
  }

  /** A folder on a cycle is never built, whatever the fuel: the source's
    * recursion does not end there either. */
  lemma {:induction false} CycleNeverBuilds(dicts: seq<DictionaryRow>, ids: set<nat>, next: map<nat, DictionaryRow>, x: nat, fuel: nat)
    requires Cyclic(dicts, ids, next) && x in ids
    ensures BuildDicTree(dicts, x, fuel).None?
    decreases fuel
  {
    if fuel > 0 {
      var c := next[x];
      CycleNeverBuilds(dicts, ids, next, c.dictionary_id, fuel - 1);
      BlockedChildBlocks(dicts, c, x, fuel - 1);
    }
  }
  /** The node of the api row `a`; its `type` is the api's method. */
  function ApiNodeOf(a: ApiRow): Node {
    Node(a.api_id, a.info.api_name, Endpoint(a.info.api_method), [])
  }

  /** The `type` text of a node: `'dictionary'` for a folder, the method for
    * an api. */
  function TypeText(k: NodeKind): string {
    match k
    case Folder => "dictionary"
    case Endpoint(m) => m
  }

  /** `getApis` descends into a node exactly when its `type` is
    * `'dictionary'`: every folder, and every api whose method is that text. */
  predicate Walked(n: Node) {
    TypeText(n.kind) == "dictionary"
  }

  /** Two nodes with the same id, label and type. */
  predicate SameHead(a: Node, b: Node) {
    a.id == b.id && a.name == b.name && a.kind == b.kind
  }

  /** `getApis(tree)`: every node whose type is `'dictionary'` gets the apis
    * filed under its id pushed after its children, and the walk goes on over
    * all of these, the pushed apis included. The source pushes, then
    * recurses; node by node the outcome is the same. A chain of apis of
    * method `'dictionary'`, each filed under the one before, that loops makes
    * the source's walk go on for ever. The model spends one unit of `fuel`
    * per level of pushed apis (a folder's own subfolders are finite and cost
    * nothing) and answers `None` when it runs out; `WalkFuelIndependent`
    * shows that beyond `|apis|` levels no fuel changes the answer. */
  function Walk(tree: seq<Node>, apis: seq<ApiRow>, fuel: nat): (r: Option<seq<Node>>)
    ensures r.Some? ==> |r.value| == |tree|
    decreases fuel, tree
  {
    if |tree| == 0 then Some([])
    else
      var n := tree[|tree| - 1];
      assert n in tree;
      var front := Walk(tree[..|tree| - 1], apis, fuel);
      var m := WalkOne(n, apis, fuel);
      if front.Some? && m.Some? then Some(front.value + [m.value]) else None
  }

  /** One node of the walk: a node that is not walked is left as it is; a
    * walked one keeps its own children, walked, followed by the walked nodes
    * of the apis filed under its id. */
  function WalkOne(n: Node, apis: seq<ApiRow>, fuel: nat): (r: Option<Node>)
    ensures r.Some? ==> SameHead(r.value, n)
    ensures !Walked(n) ==> r == Some(n)
    ensures Walked(n) && fuel == 0 ==> r.None?
    decreases fuel, n
  {
    if !Walked(n) then Some(n)
    else if fuel == 0 then None
    else
      var below := Walk(n.children, apis, fuel);
      var listed := Walk(Filed(apis, n.id), apis, fuel - 1);
      if below.Some? && listed.Some? then Some(n.(children := below.value + listed.value)) else None
  }

  /** The walk treats each node on its own: it ends exactly when every
    * node's walk ends, and then the i-th node is the i-th node walked. */
  lemma {:induction false} WalkEach(tree: seq<Node>, apis: seq<ApiRow>, fuel: nat)
    ensures Walk(tree, apis, fuel).Some? <==> forall i :: 0 <= i < |tree| ==> WalkOne(tree[i], apis, fuel).Some?
    ensures Walk(tree, apis, fuel).Some? ==>
      forall i :: 0 <= i < |tree| ==> Walk(tree, apis, fuel).value[i] == WalkOne(tree[i], apis, fuel).value
  {
    WalkDefined(tree, apis, fuel);
    if Walk(tree, apis, fuel).Some? {
      WalkValues(tree, apis, fuel);
    }
  }

  lemma {:induction false} WalkDefined(tree: seq<Node>, apis: seq<ApiRow>, fuel: nat)
    ensures Walk(tree, apis, fuel).Some? <==> forall i :: 0 <= i < |tree| ==> WalkOne(tree[i], apis, fuel).Some?
  {
    if Walk(tree, apis, fuel).Some? {
      WalkValues(tree, apis, fuel);
    } else if forall i :: 0 <= i < |tree| ==> WalkOne(tree[i], apis, fuel).Some? {
      WalkAllSome(tree, apis, fuel);
    }
  }

  /** When every node's walk ends, so does the walk of the list. */
  lemma {:induction false} WalkAllSome(tree: seq<Node>, apis: seq<ApiRow>, fuel: nat)
    requires forall i :: 0 <= i < |tree| ==> WalkOne(tree[i], apis, fuel).Some?
    ensures Walk(tree, apis, fuel).Some?
  {
    if |tree| > 0 {
      var init := tree[..|tree| - 1];
      forall i | 0 <= i < |init| ensures WalkOne(init[i], apis, fuel).Some? {
        assert init[i] == tree[i];
      }
      WalkAllSome(init, apis, fuel);
      assert WalkOne(tree[|tree| - 1], apis, fuel).Some?;
    }
  }

  lemma {:induction false} WalkValues(tree: seq<Node>, apis: seq<ApiRow>, fuel: nat)
    requires Walk(tree, apis, fuel).Some?
    ensures forall i :: 0 <= i < |tree| ==> WalkOne(tree[i], apis, fuel) == Some(Walk(tree, apis, fuel).value[i])
  {
    if |tree| > 0 {
      var init := tree[..|tree| - 1];
      var n := tree[|tree| - 1];
      assert Walk(init, apis, fuel).Some? && WalkOne(n, apis, fuel).Some?;
      WalkValues(init, apis, fuel);
      var r := Walk(tree, apis, fuel).value;
      assert r == Walk(init, apis, fuel).value + [WalkOne(n, apis, fuel).value];
      forall i | 0 <= i < |tree| ensures WalkOne(tree[i], apis, fuel) == Some(r[i]) {
        if i < |init| {
          assert init[i] == tree[i] && r[i] == Walk(init, apis, fuel).value[i];
        }
      }
    }
  }

  /** The walk keeps every node's id, label and type. */
  lemma {:induction false} WalkHeads(tree: seq<Node>, apis: seq<ApiRow>, fuel: nat)
    requires Walk(tree, apis, fuel).Some?
    ensures forall i :: 0 <= i < |tree| ==> SameHead(Walk(tree, apis, fuel).value[i], tree[i])
  {
    WalkValues(tree, apis, fuel);
    WalkDefined(tree, apis, fuel);
  }

  /** A node whose walk does not end stops the walk of any list holding it. */
  lemma {:induction false} WalkBlocked(tree: seq<Node>, apis: seq<ApiRow>, fuel: nat, n: Node)
    requires n in tree && WalkOne(n, apis, fuel).None?
    ensures Walk(tree, apis, fuel).None?
  {
    WalkDefined(tree, apis, fuel);
  }

  /** A walk that does not end holds a node whose walk does not end. */
  lemma {:induction false} WalkBlockedAt(tree: seq<Node>, apis: seq<ApiRow>, fuel: nat) returns (n: Node)
    requires Walk(tree, apis, fuel).None?
    ensures n in tree && WalkOne(n, apis, fuel).None?
  {
    WalkDefined(tree, apis, fuel);
    var i :| 0 <= i < |tree| && WalkOne(tree[i], apis, fuel).None?;
    n := tree[i];
  }

  /** The walk leaves a node that is not walked as it is. */
  lemma {:induction false} WalkLeavesUnwalked(tree: seq<Node>, apis: seq<ApiRow>, fuel: nat)
    requires Walk(tree, apis, fuel).Some?
    ensures forall i :: 0 <= i < |tree| && !Walked(tree[i]) ==> Walk(tree, apis, fuel).value[i] == tree[i]
  {
    WalkValues(tree, apis, fuel);
  }

  /** A walked node keeps its children, each walked, and is then given
    * exactly the apis filed under its id, in table order, each with its id,
    * name and method. */
  lemma {:induction false} WalkOneApis(n: Node, apis: seq<ApiRow>, fuel: nat)
    requires Walked(n) && WalkOne(n, apis, fuel).Some?
    ensures var r := WalkOne(n, apis, fuel).value;
      var listed := ApiNodes(apis, n.id);
      && |r.children| == |n.children| + |listed|
      && (forall i :: 0 <= i < |n.children| ==> SameHead(r.children[i], n.children[i]))
      && (forall i :: 0 <= i < |listed| ==> SameHead(r.children[|n.children| + i], listed[i]))
  {
    WalkOneFiled(n, apis, fuel);
  }

  lemma {:induction false} WalkOneFiled(n: Node, apis: seq<ApiRow>, fuel: nat)
    requires Walked(n) && WalkOne(n, apis, fuel).Some?
    ensures var r := WalkOne(n, apis, fuel).value;
      var listed := Filed(apis, n.id);
      && |r.children| == |n.children| + |listed|
      && (forall i :: 0 <= i < |n.children| ==> SameHead(r.children[i], n.children[i]))
      && (forall i :: 0 <= i < |listed| ==> SameHead(r.children[|n.children| + i], listed[i]))
  {
    var listed := Filed(apis, n.id);
    var below, walked := WalkOneParts(n, apis, fuel);
    WalkHeads(n.children, apis, fuel);
    WalkHeads(listed, apis, fuel - 1);
    HeadsAfter(below, walked, n.children, listed);
  }

  /** The two parts of a walked node's children: its own children walked,
    * then the apis filed under it walked. */
  lemma {:induction false} WalkOneParts(n: Node, apis: seq<ApiRow>, fuel: nat) returns (below: seq<Node>, walked: seq<Node>)
    requires Walked(n) && WalkOne(n, apis, fuel).Some?
    ensures fuel > 0 && Walk(n.children, apis, fuel) == Some(below)
    ensures Walk(Filed(apis, n.id), apis, fuel - 1) == Some(walked)
    ensures WalkOne(n, apis, fuel).value.children == below + walked
  {
    below := Walk(n.children, apis, fuel).value;
    walked := Walk(Filed(apis, n.id), apis, fuel - 1).value;
  }

  /** Heads kept part by part are kept over the whole. */
  lemma {:induction false} HeadsAfter(a: seq<Node>, b: seq<Node>, a0: seq<Node>, b0: seq<Node>)
    requires |a| == |a0| && |b| == |b0|
    requires forall i :: 0 <= i < |a| ==> SameHead(a[i], a0[i])
    requires forall i :: 0 <= i < |b| ==> SameHead(b[i], b0[i])
    ensures forall i :: 0 <= i < |a0| ==> SameHead((a + b)[i], a0[i])
    ensures forall i :: 0 <= i < |b0| ==> SameHead((a + b)[|a0| + i], b0[i])
  {
    assert forall i :: 0 <= i < |b| ==> (a + b)[|a| + i] == b[i];
  }

  /** An api whose method is not `'dictionary'` is pushed with no children
    * and left so. */
  lemma {:induction false} WalkOneLeavesApis(n: Node, apis: seq<ApiRow>, fuel: nat)
    requires Walked(n) && WalkOne(n, apis, fuel).Some?
    ensures var r := WalkOne(n, apis, fuel).value;
      var listed := ApiNodes(apis, n.id);
      forall i :: 0 <= i < |listed| && !Walked(listed[i]) ==> r.children[|n.children| + i] == listed[i]
  {
    WalkOneLeavesFiled(n, apis, fuel);
    assert ApiNodes(apis, n.id) == Filed(apis, n.id);
  }

  lemma {:induction false} WalkOneLeavesFiled(n: Node, apis: seq<ApiRow>, fuel: nat)
    requires Walked(n) && WalkOne(n, apis, fuel).Some?
    ensures var r := WalkOne(n, apis, fuel).value;
      var listed := Filed(apis, n.id);
      forall i :: 0 <= i < |listed| && !Walked(listed[i]) ==> r.children[|n.children| + i] == listed[i]
  {
    var below, walked := WalkOneParts(n, apis, fuel);
    WalkLeavesUnwalked(Filed(apis, n.id), apis, fuel - 1);
  }

  /* ---------- properties ---------- */

  /** The folder skeleton of a tree: api nodes removed at every level. */
  function Folders(tree: seq<Node>): (r: seq<Node>)
    ensures forall n :: n in r ==> n.kind.Folder?
    decreases tree
  {
    if |tree| == 0 then []
    else
      var n := tree[|tree| - 1];
      assert n in tree;
      Folders(tree[..|tree| - 1]) + if n.kind.Folder? then [n.(children := Folders(n.children))] else []
  }

  /** The walk changes no folder: the folder skeleton is unchanged. */
  lemma {:induction false} WalkKeepsFolders(tree: seq<Node>, apis: seq<ApiRow>, fuel: nat)
    requires Walk(tree, apis, fuel).Some?
    ensures Folders(Walk(tree, apis, fuel).value) == Folders(tree)
    decreases tree, 1
  {
    if |tree| > 0 {
      var n := tree[|tree| - 1];
      assert n in tree;
      var init := tree[..|tree| - 1];
      var r := Walk(tree, apis, fuel).value;
      assert Walk(init, apis, fuel).Some? && WalkOne(n, apis, fuel).Some?;
      WalkKeepsFolders(init, apis, fuel);
      assert r[..|r| - 1] == Walk(init, apis, fuel).value && r[|r| - 1] == WalkOne(n, apis, fuel).value;
      if n.kind.Folder? {
        WalkOneFolders(n, apis, fuel);
      }
    }
  }

  lemma {:induction false} WalkOneFolders(n: Node, apis: seq<ApiRow>, fuel: nat)
    requires n.kind.Folder? && WalkOne(n, apis, fuel).Some?
    ensures Folders(WalkOne(n, apis, fuel).value.children) == Folders(n.children)
    decreases n, 0
  {
    var listed := ApiNodes(apis, n.id);
    var walked := Walk(listed, apis, fuel - 1).value;
    WalkKeepsFolders(n.children, apis, fuel);
    assert forall m :: m in walked ==> m.kind.Endpoint? by {
      WalkHeads(listed, apis, fuel - 1);
      forall m | m in walked ensures m.kind.Endpoint? {
        var i :| 0 <= i < |walked| && walked[i] == m;
        assert listed[i] in listed;
      }
    }
    FoldersOfEndpoints(Walk(n.children, apis, fuel).value, walked);
  }

  lemma {:induction false} FoldersOfEndpoints(a: seq<Node>, b: seq<Node>)
    requires forall n :: n in b ==> n.kind.Endpoint?
    ensures Folders(a + b) == Folders(a)
  {
    if |b| > 0 {
      assert (a + b)[..|a + b| - 1] == a + b[..|b| - 1];
      assert b[|b| - 1] in b;
      FoldersOfEndpoints(a, b[..|b| - 1]);
    } else {
      assert a + b == a;
    }
  }

  /* ---------- when the walk ends ---------- */

  /** More fuel never changes a walk that ended. */
  lemma {:induction false} MoreFuelSameWalk(tree: seq<Node>, apis: seq<ApiRow>, fuel: nat)
    requires Walk(tree, apis, fuel).Some?
    ensures Walk(tree, apis, fuel + 1) == Walk(tree, apis, fuel)
    decreases fuel, tree
  {
    if |tree| > 0 {
      var n := tree[|tree| - 1];
      assert n in tree;
      assert Walk(tree[..|tree| - 1], apis, fuel).Some? && WalkOne(n, apis, fuel).Some?;
      MoreFuelSameWalk(tree[..|tree| - 1], apis, fuel);
      MoreFuelSameNode(n, apis, fuel);
    }
  }

  lemma {:induction false} MoreFuelSameNode(n: Node, apis: seq<ApiRow>, fuel: nat)
    requires WalkOne(n, apis, fuel).Some?
    ensures WalkOne(n, apis, fuel + 1) == WalkOne(n, apis, fuel)
    decreases fuel, n
  {
    if Walked(n) {
      var listed := ApiNodes(apis, n.id);
      assert fuel > 0 && Walk(n.children, apis, fuel).Some? && Walk(listed, apis, fuel - 1).Some?;
      MoreFuelSameWalk(n.children, apis, fuel);
      MoreFuelSameWalk(listed, apis, fuel - 1);
    }
  }

  lemma {:induction false} MoreFuelUpTo(tree: seq<Node>, apis: seq<ApiRow>, fuel: nat, more: nat)
    requires fuel <= more && Walk(tree, apis, fuel).Some?
    ensures Walk(tree, apis, more) == Walk(tree, apis, fuel)
    decreases more - fuel
  {
    if fuel < more {
      MoreFuelSameWalk(tree, apis, fuel);
      MoreFuelUpTo(tree, apis, fuel + 1, more);
    }
  }

  /** A chain of api rows of method `'dictionary'`, each filed under the one
    * before it. */
  predicate ApiLinked(apis: seq<ApiRow>, c: seq<ApiRow>) {
    && (forall i :: 0 <= i < |c| ==> c[i] in apis && c[i].info.api_method == "dictionary")
    && (forall i :: 0 < i < |c| ==> c[i].dictionary_id == c[i - 1].api_id)
  }

  /** The walk of an api node that does not end within `fuel` levels descends
    * a chain of `fuel` apis filed one under the other. */
  lemma {:induction false} ApiChain(apis: seq<ApiRow>, x: ApiRow, fuel: nat) returns (c: seq<ApiRow>)
    requires x in apis && WalkOne(ApiNodeOf(x), apis, fuel).None?
    ensures |c| == fuel + 1 && c[0] == x && ApiLinked(apis, c)
    decreases fuel
  {
    var n := ApiNodeOf(x);
    assert Walked(n);
    if fuel == 0 {
      c := [x];
    } else {
      assert Walk(n.children, apis, fuel) == Some([]);
      var y := BlockingApi(n, apis, fuel);
      var rest := ApiChain(apis, y, fuel - 1);
      ApiLinkedCons(apis, x, rest);
      c := [x] + rest;
    }
  }

  /** An api of method `'dictionary'` put on top of a chain headed by an api
    * filed under it is a chain. */
  lemma {:induction false} ApiLinkedCons(apis: seq<ApiRow>, x: ApiRow, rest: seq<ApiRow>)
    requires x in apis && x.info.api_method == "dictionary"
    requires ApiLinked(apis, rest) && |rest| > 0 && rest[0].dictionary_id == x.api_id
    ensures ApiLinked(apis, [x] + rest)
  {
    var c := [x] + rest;
    forall i | 0 < i < |c| ensures c[i] in apis && c[i].info.api_method == "dictionary" && c[i].dictionary_id == c[i - 1].api_id {
      assert c[i] == rest[i - 1];
      if i > 1 {
        assert c[i - 1] == rest[i - 2];
      }
    }
  }

  /** The rows of a sequence. */
  function RowSet(s: seq<ApiRow>): (r: set<ApiRow>)
    ensures forall a :: a in r <==> a in s
  {
    set a | a in s
  }

  /** There are no more rows than entries. */
  lemma {:induction false} RowSetBound(s: seq<ApiRow>)
    ensures |RowSet(s)| <= |s|
  {
    if |s| > 0 {
      var front := s[..|s| - 1];
      RowSetBound(front);
      assert RowSet(s) == RowSet(front) + {s[|s| - 1]};
    }
  }

  /** Pairwise different entries are as many rows. */
  lemma {:induction false} RowSetDistinct(s: seq<ApiRow>)
    requires forall j, k :: 0 <= j < k < |s| ==> s[j] != s[k]
    ensures |RowSet(s)| == |s|
  {
    if |s| > 0 {
      var front := s[..|s| - 1];
      var last := s[|s| - 1];
      RowSetDistinct(front);
      assert RowSet(s) == RowSet(front) + {last};
      assert last !in RowSet(front);
    }
  }

  /** A chain of more rows than the table holds meets some row twice. */
  lemma {:induction false} FindRepeat(apis: seq<ApiRow>, c: seq<ApiRow>) returns (j: nat, k: nat)
    requires forall i :: 0 <= i < |c| ==> c[i] in apis
    requires |c| > |apis|
    ensures j < k < |c| && c[j] == c[k]
  {
    if forall j, k :: 0 <= j < k < |c| ==> c[j] != c[k] {
      RowSetDistinct(c);
      RowSetBound(apis);
      SubsetCard(RowSet(c), RowSet(apis));
      assert false;
    }
    j, k :| 0 <= j < k < |c| && c[j] == c[k];
  }

  /** A walked node with an api filed under it whose walk does not end is
    * not walked to the end one level up. */
  lemma {:induction false} NodeBlocked(n: Node, apis: seq<ApiRow>, x: ApiRow, fuel: nat)
    requires Walked(n) && x in apis && x.dictionary_id == n.id
    requires WalkOne(ApiNodeOf(x), apis, fuel).None?
    ensures WalkOne(n, apis, fuel + 1).None?
  {
    assert ApiNodeOf(x) in ApiNodes(apis, n.id);
    WalkBlocked(ApiNodes(apis, n.id), apis, fuel, ApiNodeOf(x));
  }

  /** A walked node whose own children are walked but which is not walked
    * to the end has an api filed under it whose walk does not end one level
    * down. */
  lemma {:induction false} BlockingApi(n: Node, apis: seq<ApiRow>, fuel: nat) returns (x: ApiRow)
    requires Walked(n) && fuel > 0 && WalkOne(n, apis, fuel).None? && Walk(n.children, apis, fuel).Some?
    ensures x in apis && x.dictionary_id == n.id && WalkOne(ApiNodeOf(x), apis, fuel - 1).None?
  {
    var listed := ApiNodes(apis, n.id);
    assert Walk(listed, apis, fuel - 1).None?;
    var e := WalkBlockedAt(listed, apis, fuel - 1);
    x :| x in apis && x.dictionary_id == n.id && e == ApiNodeOf(x);
  }


  /** A chain that meets a row twice loops: no api up to the repeat is ever
    * walked to the end, whatever the fuel. */
  lemma {:induction false} LoopNone(apis: seq<ApiRow>, c: seq<ApiRow>, j: nat, k: nat, fuel: nat)
    requires ApiLinked(apis, c) && j < k < |c| && c[j] == c[k]
    ensures forall i :: 0 <= i <= k ==> WalkOne(ApiNodeOf(c[i]), apis, fuel).None?
    decreases fuel
  {
    if fuel > 0 {
      LoopNone(apis, c, j, k, fuel - 1);
      forall i | 0 <= i <= k ensures WalkOne(ApiNodeOf(c[i]), apis, fuel).None? {
        LoopStep(apis, c, j, k, i, fuel - 1);
      }
    } else {
      forall i | 0 <= i <= k ensures WalkOne(ApiNodeOf(c[i]), apis, fuel).None? {
        assert Walked(ApiNodeOf(c[i]));
      }
    }
  }

  /** One more level along a looping chain is no more walked to the end:
    * each api has the next one, or after the repeat the one after its first
    * occurrence, filed under it. */
  lemma {:induction false} LoopStep(apis: seq<ApiRow>, c: seq<ApiRow>, j: nat, k: nat, i: nat, fuel: nat)
    requires ApiLinked(apis, c) && j < k < |c| && c[j] == c[k] && i <= k
    requires forall m :: 0 <= m <= k ==> WalkOne(ApiNodeOf(c[m]), apis, fuel).None?
    ensures WalkOne(ApiNodeOf(c[i]), apis, fuel + 1).None?
  {
    var next := if i < k then i + 1 else j + 1;
    assert c[next].dictionary_id == c[i].api_id by {
      if i == k {
        assert c[k] == c[j];
      }
    }
    assert Walked(ApiNodeOf(c[i]));
    NodeBlocked(ApiNodeOf(c[i]), apis, c[next], fuel);
  }


  /** The walk of an api that does not end within `|apis|` levels never
    * ends: its chain meets a row twice. */
  lemma {:induction false} ApiNever(apis: seq<ApiRow>, x: ApiRow, fuel: nat)
    requires x in apis && fuel >= |apis| && WalkOne(ApiNodeOf(x), apis, fuel).None?
    ensures forall more: nat :: WalkOne(ApiNodeOf(x), apis, more).None?
  {
    var c := ApiChain(apis, x, fuel);
    var j, k := FindRepeat(apis, c);
    forall more: nat ensures WalkOne(ApiNodeOf(x), apis, more).None? {
      LoopNone(apis, c, j, k, more);
    }
  }

  /** A walk that does not end within more than `|apis|` levels never ends. */
  lemma {:induction false} WalkNone(tree: seq<Node>, apis: seq<ApiRow>, fuel: nat)
    requires fuel > |apis| && Walk(tree, apis, fuel).None?
    ensures forall more: nat :: Walk(tree, apis, more).None?
    decreases tree
  {
    var n := WalkBlockedAt(tree, apis, fuel);
    WalkOneNone(n, apis, fuel);
    forall more: nat ensures Walk(tree, apis, more).None? {
      WalkBlocked(tree, apis, more, n);
    }
  }

  lemma {:induction false} WalkOneNone(n: Node, apis: seq<ApiRow>, fuel: nat)
    requires fuel > |apis| && WalkOne(n, apis, fuel).None?
    ensures forall more: nat :: WalkOne(n, apis, more).None?
    decreases n
  {
    assert Walked(n);
    if Walk(n.children, apis, fuel).None? {
      WalkNone(n.children, apis, fuel);
      forall more: nat ensures WalkOne(n, apis, more).None? {
        assert Walk(n.children, apis, more).None?;
      }
    } else {
      ApiBlockedNever(n, apis, fuel);
    }
  }

  /** A walked node held up by one of its apis beyond `|apis|` levels is
    * held up for ever. */
  lemma {:induction false} ApiBlockedNever(n: Node, apis: seq<ApiRow>, fuel: nat)
    requires Walked(n) && fuel > |apis| && WalkOne(n, apis, fuel).None? && Walk(n.children, apis, fuel).Some?
    ensures forall more: nat :: WalkOne(n, apis, more).None?
  {
    var x := BlockingApi(n, apis, fuel);
    ApiNever(apis, x, fuel - 1);
    forall more: nat ensures WalkOne(n, apis, more).None? {
      if more > 0 {
        NodeBlocked(n, apis, x, more - 1);
      }
    }
  }

  /** The fuel is no part of the answer: any fuel above `|apis|` gives the
    * walk that any fuel at all gives, and when it finds none, the walk never
    * ends. */
  lemma {:induction false} WalkFuelIndependent(tree: seq<Node>, apis: seq<ApiRow>, fuel: nat, other: nat)
    requires fuel > |apis| && Walk(tree, apis, other).Some?
    ensures Walk(tree, apis, fuel) == Walk(tree, apis, other)
  {
    if Walk(tree, apis, fuel).None? {
      WalkNone(tree, apis, fuel);
      assert false;
    }
    if fuel <= other {
      MoreFuelUpTo(tree, apis, fuel, other);
    } else {
      MoreFuelUpTo(tree, apis, other, fuel);
    }
  }

  /** Only an api of method `'dictionary'` can keep the walk from ending:
    * folders and every other api are walked at once. */
  lemma {:induction false} WalkNoneNeedsDictionaryApi(tree: seq<Node>, apis: seq<ApiRow>, fuel: nat)
    requires fuel > 0 && Walk(tree, apis, fuel).None?
    ensures exists a :: a in apis && a.info.api_method == "dictionary"
    decreases tree
  {
    var n := WalkBlockedAt(tree, apis, fuel);
    WalkOneNoneNeedsDictionaryApi(n, apis, fuel);
  }

  lemma {:induction false} WalkOneNoneNeedsDictionaryApi(n: Node, apis: seq<ApiRow>, fuel: nat)
    requires fuel > 0 && WalkOne(n, apis, fuel).None?
    ensures exists a :: a in apis && a.info.api_method == "dictionary"
    decreases n
  {
    assert Walked(n);
    if Walk(n.children, apis, fuel).None? {
      WalkNoneNeedsDictionaryApi(n.children, apis, fuel);
    } else {
      var x := BlockingApi(n, apis, fuel);
      assert Walked(ApiNodeOf(x));
    }
  }

  /** An api of method `'dictionary'` filed under its own id lists itself
    * under itself: its walk never ends. */
  lemma {:induction false} SelfFiledApi(apis: seq<ApiRow>, x: ApiRow, fuel: nat)
    requires x in apis && x.info.api_method == "dictionary" && x.dictionary_id == x.api_id
    ensures WalkOne(ApiNodeOf(x), apis, fuel).None?
    decreases fuel
  {
    if fuel > 0 {
      SelfFiledApi(apis, x, fuel - 1);
      assert Walked(ApiNodeOf(x));
      NodeBlocked(ApiNodeOf(x), apis, x, fuel - 1);
    }
  }

  /** A one-node list is walked as its node. */
  lemma WalkSingle(n: Node, apis: seq<ApiRow>, fuel: nat)
    ensures Walk([n], apis, fuel) == if WalkOne(n, apis, fuel).Some? then Some([WalkOne(n, apis, fuel).value]) else None
  {
    assert [n][..0] == [];
    assert Walk([], apis, fuel) == Some([]);
    if WalkOne(n, apis, fuel).Some? {
      assert [] + [WalkOne(n, apis, fuel).value] == [WalkOne(n, apis, fuel).value];
    }
  }

  /** An api whose method is `'dictionary'` is walked like a folder: the api
    * filed under its id is pushed below it. */
  lemma DictionaryApiExample()
    ensures var root := DictionaryRow(1, 1, "root", None);
      var holder := ApiRow(5, 1, 1, BasicInfo("holder", "/h", "dictionary", 0, 0, 0, ""), 0, None, false);
      var inner := ApiRow(7, 1, 5, BasicInfo("inner", "/i", "GET", 0, 0, 0, ""), 0, None, false);
      GetApiList([root], [holder, inner], 1)
        == Some([Node(1, "root", Folder, [Node(5, "holder", Endpoint("dictionary"), [Node(7, "inner", Endpoint("GET"), [])])])])
  {
    var root := DictionaryRow(1, 1, "root", None);
    var holder := ApiRow(5, 1, 1, BasicInfo("holder", "/h", "dictionary", 0, 0, 0, ""), 0, None, false);
    var inner := ApiRow(7, 1, 5, BasicInfo("inner", "/i", "GET", 0, 0, 0, ""), 0, None, false);
    var apis := [holder, inner];
    assert BuildDicTree([root], 1, 2) == Some([]) by {
      assert ChildrenOf([root], 1) == [];
    }
    assert GetApiList([root], apis, 1) == Walk([Node(1, "root", Folder, [])], apis, 3) by {
      assert ProjectFolders([root], 1) == [root];
      assert FindRoot([root]) == Some(root);
    }
    FiledExample(holder, inner);
    var leaf := ApiNodeOf(inner);
    var mid := ApiNodeOf(holder);
    var top := Node(1, "root", Folder, []);
    WalkSingle(leaf, apis, 1);
    WalkSingle(mid, apis, 2);
    WalkSingle(top, apis, 3);
    assert WalkOne(mid, apis, 2) == Some(mid.(children := [leaf])) by {
      assert Walked(mid) && !Walked(leaf);
    }
    assert WalkOne(top, apis, 3) == Some(top.(children := [mid.(children := [leaf])]));
  }

  lemma FiledExample(holder: ApiRow, inner: ApiRow)
    requires holder.dictionary_id == 1 && inner.dictionary_id == 5
    ensures Filed([holder, inner], 1) == [ApiNodeOf(holder)] && Filed([holder, inner], 5) == [ApiNodeOf(inner)]
  {
    assert [holder, inner][..1] == [holder] && [holder][..0] == [];
    assert Filed([holder], 1) == [ApiNodeOf(holder)];
    assert Filed([holder], 5) == [];
  }

  /* ---------- the reply ---------- */

  /** `getApiList`: the single root node with its folder tree and apis, or
    * `None` when there is no tree to send: the project has no root folder
    * (the destructuring of `root!` throws and the `catch` answers 500), the
    * building of the folders overflows the stack on a cycle of `father_id`
    * links (500 again), or the walk of the apis never ends and no reply is
    * sent. */
  function GetApiList(dicts: seq<DictionaryRow>, apis: seq<ApiRow>, project: nat): (r: Option<seq<Node>>)
    ensures FindRoot(ProjectFolders(dicts, project)).None? ==> r.None?
    ensures r.Some? ==> |r.value| == 1 && r.value[0].kind == Folder
  {
    TreeOf(ProjectFolders(dicts, project), apis)
  }

  /** The tree of one project's folders `source`, rooted at its first root
    * folder, walked with fuel one more than there are apis. */
  function TreeOf(source: seq<DictionaryRow>, apis: seq<ApiRow>): (r: Option<seq<Node>>)
    ensures FindRoot(source).None? ==> r.None?
    ensures r.Some? ==> |r.value| == 1 && r.value[0].kind == Folder
  {
    TreeAt(source, apis, |apis| + 1)
  }

  /** The tree with the walk of the apis bounded by `fuel`. */
  function TreeAt(source: seq<DictionaryRow>, apis: seq<ApiRow>, fuel: nat): (r: Option<seq<Node>>)
    ensures FindRoot(source).None? ==> r.None?
    ensures r.Some? ==> |r.value| == 1 && r.value[0].kind == Folder
  {
    match FindRoot(source)
    case None => None
    case Some(root) =>
      match BuildDicTree(source, root.dictionary_id, |source| + 1)
      case None => None
      case Some(children) =>
        var top := Node(root.dictionary_id, root.dictionary_name, Folder, children);
        var r := Walk([top], apis, fuel);
        if r.Some? then WalkHeads([top], apis, fuel); r else r
  }

  /** Any bound on the walk that gives a tree gives the model's tree: the
    * bound `TreeOf` uses loses no reply the source sends. */
  lemma {:induction false} TreeAtFuel(source: seq<DictionaryRow>, apis: seq<ApiRow>, fuel: nat)
    requires TreeAt(source, apis, fuel).Some?
    ensures TreeOf(source, apis) == TreeAt(source, apis, fuel)
  {
    var root := FindRoot(source).value;
    var children := BuildDicTree(source, root.dictionary_id, |source| + 1).value;
    WalkFuelIndependent([Node(root.dictionary_id, root.dictionary_name, Folder, children)], apis, |apis| + 1, fuel);
  }

  /** With a root folder, the reply is present exactly when the folder tree
    * under it is built and the walks of its subfolders and of its own apis
    * end, and is then the root folder alone, holding its walked subfolders
    * followed by its walked apis. */
  lemma {:induction false} TreeOfShape(source: seq<DictionaryRow>, apis: seq<ApiRow>, root: DictionaryRow)
    requires FindRoot(source) == Some(root)
    ensures var built := BuildDicTree(source, root.dictionary_id, |source| + 1);
      var below := if built.Some? then Walk(built.value, apis, |apis| + 1) else None;
      var listed := Walk(ApiNodes(apis, root.dictionary_id), apis, |apis|);
      var r := TreeOf(source, apis);
      && (r.Some? <==> below.Some? && listed.Some?)
      && (r.Some? ==> r.value == [Node(root.dictionary_id, root.dictionary_name, Folder, below.value + listed.value)])
  {
    var built := BuildDicTree(source, root.dictionary_id, |source| + 1);
    if built.Some? {
      var top := Node(root.dictionary_id, root.dictionary_name, Folder, built.value);
      WalkEach([top], apis, |apis| + 1);
      assert [top][0] == top;
    }
  }

  /** With folder ids as keys, a project with a root folder gets its tree
    * unless some api has the method `'dictionary'`: the folders are always
    * built, and only such an api can keep the walk from ending. */
  lemma {:induction false} TreeOfUniqueIds(source: seq<DictionaryRow>, apis: seq<ApiRow>, root: DictionaryRow)
    requires FindRoot(source) == Some(root) && UniqueIds(source)
    ensures TreeOf(source, apis).None? ==> exists a :: a in apis && a.info.api_method == "dictionary"
  {
    assert BuildDicTree(source, root.dictionary_id, |source| + 1).Some? by {
      UniqueIdsBuild(source, root);
    }
    if TreeOf(source, apis).None? {
      var children := BuildDicTree(source, root.dictionary_id, |source| + 1).value;
      WalkNoneNeedsDictionaryApi([Node(root.dictionary_id, root.dictionary_name, Folder, children)], apis, |apis| + 1);
    }
  }

  /** With folder ids as keys, a project with a root folder gets no tree
    * from `getApiList` only when some api has the method `'dictionary'`. */
  lemma {:induction false} GetApiListDefined(dicts: seq<DictionaryRow>, apis: seq<ApiRow>, project: nat)
    requires UniqueIds(dicts)
    ensures FindRoot(ProjectFolders(dicts, project)).Some? && GetApiList(dicts, apis, project).None? ==>
      exists a :: a in apis && a.info.api_method == "dictionary"
  {
    var source := ProjectFolders(dicts, project);
    if FindRoot(source).Some? {
      assert UniqueIds(source);
      TreeOfUniqueIds(source, apis, FindRoot(source).value);
    }
  }
}
