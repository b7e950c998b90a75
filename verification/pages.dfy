/** The pages panel's flat tree: folders and pages flattened depth first
    into the rows the sortable tree renders (`$flatPagesTree`), the folder
    test (`isFolder`) and the expand/collapse update (`handleExpand`). */
module PagesTree {
  import opened Wrappers

  /** Id of the folder every page tree starts from. */
  const RootFolderId: string := "root"
  /** Id given to a folder that is being created and not yet saved. */
  const NewFolderId: string := "new-folder"

  datatype Folder = Folder(id: string, name: string, children: seq<string>)
  datatype Page = Page(id: string, name: string)
  datatype PagesData = PagesData(folders: seq<Folder>, pages: seq<Page>, homePage: Page)

  datatype DropTarget = DropTarget(folderId: string, closestChildIndex: int)

  datatype ItemKind = PageItem(page: Page) | FolderItem(folder: Folder)

  /** One row of the tree; `isExpanded` is absent for pages, for the top
      level and for folders without children. */
  datatype TreeItem = TreeItem(id: string, level: nat, isExpanded: Option<bool>, kind: ItemKind,
                               isLastChild: bool, dropTarget: Option<DropTarget>)

  /** Everything `traverse` reads from its closure. */
  datatype Env = Env(folders: map<string, Folder>, pages: map<string, Page>, expanded: set<string>,
                     dropTarget: Option<DropTarget>)

  /** `new Map(folders.map(f => [f.id, f]))`: later entries win. */
  function FolderMap(folders: seq<Folder>): (r: map<string, Folder>)
    ensures forall id :: id in r <==> exists f :: f in folders && f.id == id
    ensures forall id :: id in r ==> r[id].id == id && r[id] in folders
  {
    if folders == [] then map[]
    else
      var last := folders[|folders| - 1];
      var rest := FolderMap(folders[..|folders| - 1]);
      assert forall f :: f in folders <==> f in folders[..|folders| - 1] || f == last;
      rest[last.id := last]
  }

  /** The pages map, with the home page put in last. */
  function PageMap(pages: seq<Page>, homePage: Page): (r: map<string, Page>)
    ensures forall id :: id in r <==> id == homePage.id || exists p :: p in pages && p.id == id
    ensures forall id :: id in r ==> r[id].id == id
    ensures r[homePage.id] == homePage
  {
    PageList(pages)[homePage.id := homePage]
  }

  function PageList(pages: seq<Page>): (r: map<string, Page>)
    ensures forall id :: id in r <==> exists p :: p in pages && p.id == id
    ensures forall id :: id in r ==> r[id].id == id && r[id] in pages
  {
    if pages == [] then map[]
    else
      var last := pages[|pages| - 1];
      var rest := PageList(pages[..|pages| - 1]);
      assert forall p :: p in pages <==> p in pages[..|pages| - 1] || p == last;
      rest[last.id := last]
  }

  function EnvOf(data: PagesData, expanded: set<string>, dropTarget: Option<DropTarget>): (r: Env)
    ensures r.folders == FolderMap(data.folders) && r.pages == PageMap(data.pages, data.homePage)
    ensures r.expanded == expanded && r.dropTarget == dropTarget
  {
    Env(FolderMap(data.folders), PageMap(data.pages, data.homePage), expanded, dropTarget)
  }

  /** The folders whose children `traverse` descends into — the root, and
      every expanded folder — are ranked: each child folder sits below its
      parent. Without it the traversal of a folder cycle would not end. */
  ghost predicate Ranked(env: Env, rank: map<string, nat>)
  {
    forall id :: id in env.folders ==> id in rank && (Opens(env, id) ==> ChildrenBelow(env, rank, id, rank[id]))
  }

  /** The folders `traverse` may open: the root, and the expanded ones. */
  predicate Opens(env: Env, id: string)
    requires id in env.folders
  {
    id == RootFolderId || env.folders[id].id in env.expanded
  }

  ghost predicate ChildrenBelow(env: Env, rank: map<string, nat>, id: string, bound: nat)
    requires id in env.folders
  {
    forall c :: c in env.folders[id].children && c in env.folders ==> c in rank && rank[c] < bound
  }

  /** Whether the drop target points at this position among a folder's
      children. */
  predicate DropsHere(dropTarget: Option<DropTarget>, parentId: Option<string>, index: nat)
  {
    dropTarget.Some? && parentId == Some(dropTarget.value.folderId) && dropTarget.value.closestChildIndex == index
  }

  function ExpandedState(env: Env, itemId: string, level: nat): (r: Option<bool>)
    requires itemId in env.folders
    ensures r.Some? <==> level > 0 && |env.folders[itemId].children| > 0
    ensures r.Some? ==> (r.value <==> env.folders[itemId].id in env.expanded)
  {
    if level > 0 && |env.folders[itemId].children| > 0 then Some(env.folders[itemId].id in env.expanded) else None
  }

  /** The folder's own row: none for the root folder or a non-folder. */
  function OwnRow(env: Env, itemId: string, level: nat, isLast: bool): (r: seq<TreeItem>)
    ensures |r| <= 1 && (r != [] <==> itemId in env.folders && itemId != RootFolderId)
    ensures forall it :: it in r ==>
              (it.id == itemId && it.level == level && it.dropTarget.None? && it.kind == FolderItem(env.folders[itemId]))
  {
    if itemId in env.folders && itemId != RootFolderId
    then [TreeItem(itemId, level, ExpandedState(env, itemId, level), FolderItem(env.folders[itemId]), isLast, None)]
    else []
  }

  /** The page's row, if the id names a page. */
  function PageRow(env: Env, itemId: string, level: nat, isLast: bool): (r: seq<TreeItem>)
    ensures |r| <= 1 && (r != [] <==> itemId in env.pages)
    ensures forall it :: it in r ==>
              (it.id == itemId && it.level == level && it.dropTarget.None? && it.kind == PageItem(env.pages[itemId]))
  {
    if itemId in env.pages then [TreeItem(itemId, level, None, PageItem(env.pages[itemId]), isLast, None)] else []
  }

  /** Whether `traverse` goes into the folder's children: always at the top
      level, elsewhere only when the folder is expanded. */
  predicate Descends(env: Env, itemId: string, level: nat)
  {
    itemId in env.folders && (level == 0 || ExpandedState(env, itemId, level) == Some(true))
  }

  /** Setting `dropTarget` on the row produced last: the page row if there
      is one, else the folder row. */
  function Patch(rows: seq<TreeItem>, hasPage: bool, hasOwn: bool, drops: bool, dropTarget: Option<DropTarget>)
    : (r: seq<TreeItem>)
    requires hasPage || hasOwn ==> |rows| > 0
    ensures |r| == |rows|
    ensures forall j :: 0 <= j < |r| ==>
              r[j].id == rows[j].id && r[j].level == rows[j].level && r[j].kind == rows[j].kind &&
              r[j].isExpanded == rows[j].isExpanded && r[j].isLastChild == rows[j].isLastChild &&
              (r[j].dropTarget == rows[j].dropTarget || (drops && r[j].dropTarget == dropTarget))
  {
    if drops && hasPage then rows[|rows| - 1 := rows[|rows| - 1].(dropTarget := dropTarget)]
    else if drops && hasOwn then rows[0 := rows[0].(dropTarget := dropTarget)]
    else rows
  }

  /** The rows of an opened folder's children. */
  function Below(env: Env, itemId: string, level: nat, ghost rank: map<string, nat>, ghost bound: nat)
    : (r: seq<TreeItem>)
    requires Ranked(env, rank)
    requires level == 0 ==> itemId == RootFolderId
    requires itemId in env.folders ==> rank[itemId] < bound
    decreases bound, 0
  {
    if Descends(env, itemId, level)
    then VisitChildren(env, itemId, env.folders[itemId].children, 0, level + 1, rank, rank[itemId])
    else []
  }

  /** The rows `traverse(itemId, level, parentId, index, isLastChild)` pushes. */
  function Visit(env: Env, itemId: string, level: nat, parentId: Option<string>, index: nat, isLast: bool,
                 ghost rank: map<string, nat>, ghost bound: nat): (r: seq<TreeItem>)
    requires Ranked(env, rank)
    requires level == 0 ==> itemId == RootFolderId
    requires itemId in env.folders ==> rank[itemId] < bound
    decreases bound, 1
  {
    var own := OwnRow(env, itemId, level, isLast);
    var below := Below(env, itemId, level, rank, bound);
    var pageRow := PageRow(env, itemId, level, isLast);
    Patch(own + below + pageRow, pageRow != [], own != [], DropsHere(env.dropTarget, parentId, index), env.dropTarget)
  }

  /** The rows of `children[k..]`, visited in order below `parentId`. */
  function VisitChildren(env: Env, parentId: string, children: seq<string>, k: nat, level: nat,
                         ghost rank: map<string, nat>, ghost bound: nat): (r: seq<TreeItem>)
    requires Ranked(env, rank)
    requires level > 0
    requires forall c :: c in children && c in env.folders ==> rank[c] < bound
    decreases bound, 2, |children| - k
  {
    if k >= |children| then []
    else
      Visit(env, children[k], level, Some(parentId), k, k == |children| - 1, rank, bound)
        + VisitChildren(env, parentId, children, k + 1, level, rank, bound)
  }

  /** A row points at an entry of the maps, and the root folder has no row. */
  ghost predicate Resolves(env: Env, item: TreeItem)
  {
    match item.kind
    case PageItem(p) => item.id in env.pages && env.pages[item.id] == p
    case FolderItem(f) => item.id in env.folders && env.folders[item.id] == f && item.id != RootFolderId
  }

  /** What holds of every row produced at `level` or deeper. */
  ghost predicate Good(env: Env, item: TreeItem, level: nat)
  {
    item.level >= level && Resolves(env, item) && (item.dropTarget.None? || item.dropTarget == env.dropTarget)
  }

  /** Every row of `traverse(itemId, level, parentId, index, isLastChild)`
      is at `level` or deeper; the rows at `level` are the item's own rows,
      with its `isLastChild`, and carry the drop target only when it points
      at (`parentId`, `index`). */
  lemma {:induction false} VisitGood(env: Env, itemId: string, level: nat, parentId: Option<string>, index: nat,
                                     isLast: bool, rank: map<string, nat>, bound: nat)
    requires Ranked(env, rank)
    requires level == 0 ==> itemId == RootFolderId
    requires itemId in env.folders ==> rank[itemId] < bound
    ensures var r := Visit(env, itemId, level, parentId, index, isLast, rank, bound);
      AllGood(env, r, level) && TopRows(env, r, level, itemId, isLast, parentId, index)
    decreases bound, 1
  {
    var own := OwnRow(env, itemId, level, isLast);
    var below := Below(env, itemId, level, rank, bound);
    var pageRow := PageRow(env, itemId, level, isLast);
    if Descends(env, itemId, level) {
      VisitChildrenGood(env, itemId, env.folders[itemId].children, 0, level + 1, rank, rank[itemId]);
    }
    RowsGood(env, own, below, pageRow, level, itemId, isLast);
    PatchGood(env, own + below + pageRow, pageRow != [], own != [], level, itemId, isLast, parentId, index);
  }

  ghost predicate AllGood(env: Env, rows: seq<TreeItem>, level: nat)
  {
    forall it :: it in rows ==> Good(env, it, level)
  }

  /** The rows at `level` belong to the visited item itself. */
  ghost predicate TopRows(env: Env, rows: seq<TreeItem>, level: nat, itemId: string, isLast: bool,
                          parentId: Option<string>, index: nat)
  {
    forall it :: it in rows && it.level == level ==>
      it.id == itemId && it.isLastChild == isLast && (it.dropTarget.Some? ==> DropsHere(env.dropTarget, parentId, index))
  }

  /** The rows at `level` are rows of the children `children[k..]`: each
      names a child, is the last child exactly when that child is last, and
      carries the drop target only when it points at that child's index. */
  ghost predicate ChildRows(env: Env, rows: seq<TreeItem>, level: nat, parentId: string, children: seq<string>, k: nat)
  {
    forall it :: it in rows && it.level == level ==>
      exists j :: k <= j < |children| && it.id == children[j] && it.isLastChild == (j == |children| - 1) &&
        (it.dropTarget.Some? ==> DropsHere(env.dropTarget, Some(parentId), j))
  }

  lemma RowsGood(env: Env, own: seq<TreeItem>, below: seq<TreeItem>, pageRow: seq<TreeItem>, level: nat,
                 itemId: string, isLast: bool)
    requires AllGood(env, own, level) && AllGood(env, pageRow, level) && AllGood(env, below, level + 1)
    requires forall it :: it in own + pageRow ==> it.id == itemId && it.isLastChild == isLast && it.dropTarget.None?
    ensures var rows := own + below + pageRow;
      AllGood(env, rows, level) &&
      forall it :: it in rows && it.level == level ==> it.id == itemId && it.isLastChild == isLast && it.dropTarget.None?
  {
    assert forall it :: it in own + below + pageRow <==> it in own || it in below || it in pageRow;
  }

  lemma PatchGood(env: Env, rows: seq<TreeItem>, hasPage: bool, hasOwn: bool, level: nat, itemId: string, isLast: bool,
                  parentId: Option<string>, index: nat)
    requires hasPage || hasOwn ==> |rows| > 0
    requires AllGood(env, rows, level)
    requires forall it :: it in rows && it.level == level ==> it.id == itemId && it.isLastChild == isLast && it.dropTarget.None?
    ensures var r := Patch(rows, hasPage, hasOwn, DropsHere(env.dropTarget, parentId, index), env.dropTarget);
      AllGood(env, r, level) && TopRows(env, r, level, itemId, isLast, parentId, index)
  {
    var drops := DropsHere(env.dropTarget, parentId, index);
    var r := Patch(rows, hasPage, hasOwn, drops, env.dropTarget);
    assert forall j :: 0 <= j < |rows| ==> rows[j] in rows;
    assert forall j :: 0 <= j < |r| ==>
      (Good(env, r[j], level) &&
       (r[j].level == level ==> r[j].id == itemId && r[j].isLastChild == isLast && (r[j].dropTarget.Some? ==> drops)));
  }

  lemma {:induction false} VisitChildrenGood(env: Env, parentId: string, children: seq<string>, k: nat, level: nat,
                                             rank: map<string, nat>, bound: nat)
    requires Ranked(env, rank)
    requires level > 0
    requires forall c :: c in children && c in env.folders ==> rank[c] < bound
    ensures var r := VisitChildren(env, parentId, children, k, level, rank, bound);
      AllGood(env, r, level) && ChildRows(env, r, level, parentId, children, k)
    decreases bound, 2, |children| - k
  {
    if k < |children| {
      VisitGood(env, children[k], level, Some(parentId), k, k == |children| - 1, rank, bound);
      VisitChildrenGood(env, parentId, children, k + 1, level, rank, bound);
      VisitChildrenStep(env, parentId, children, k, level, rank, bound);
    }
  }

  /** The rows of `children[k]` followed by those of `children[k + 1..]`. */
  lemma VisitChildrenStep(env: Env, parentId: string, children: seq<string>, k: nat, level: nat,
                          rank: map<string, nat>, bound: nat)
    requires Ranked(env, rank)
    requires level > 0 && k < |children|
    requires forall c :: c in children && c in env.folders ==> rank[c] < bound
    requires var here := Visit(env, children[k], level, Some(parentId), k, k == |children| - 1, rank, bound);
      AllGood(env, here, level) && TopRows(env, here, level, children[k], k == |children| - 1, Some(parentId), k)
    requires var rest := VisitChildren(env, parentId, children, k + 1, level, rank, bound);
      AllGood(env, rest, level) && ChildRows(env, rest, level, parentId, children, k + 1)
    ensures var r := VisitChildren(env, parentId, children, k, level, rank, bound);
      AllGood(env, r, level) && ChildRows(env, r, level, parentId, children, k)
  {
    VisitChildrenUnfold(env, parentId, children, k, level, rank, bound);
    ChildRowsCons(env, Visit(env, children[k], level, Some(parentId), k, k == |children| - 1, rank, bound),
                  VisitChildren(env, parentId, children, k + 1, level, rank, bound), level, parentId, children, k);
  }

  lemma ChildRowsCons(env: Env, here: seq<TreeItem>, rest: seq<TreeItem>, level: nat, parentId: string,
                      children: seq<string>, k: nat)
    requires k < |children|
    requires AllGood(env, here, level) && TopRows(env, here, level, children[k], k == |children| - 1, Some(parentId), k)
    requires AllGood(env, rest, level) && ChildRows(env, rest, level, parentId, children, k + 1)
    ensures AllGood(env, here + rest, level) && ChildRows(env, here + rest, level, parentId, children, k)
  {
    assert forall it :: it in here + rest <==> it in here || it in rest;
    forall it | it in here && it.level == level
      ensures exists j :: k <= j < |children| && it.id == children[j] && it.isLastChild == (j == |children| - 1) &&
                (it.dropTarget.Some? ==> DropsHere(env.dropTarget, Some(parentId), j))
    {
      assert it.id == children[k];
    }
  }

  function RootBound(env: Env, rank: map<string, nat>): (r: nat)
    requires Ranked(env, rank)
    ensures RootFolderId in env.folders ==> rank[RootFolderId] < r
  {
    if RootFolderId in env.folders then rank[RootFolderId] + 1 else 0
  }

  /** `$flatPagesTree`: no rows before the pages are loaded; otherwise the
      rows below the root folder. Every row resolves to a page or folder of
      the project, the root folder itself has no row, the only row at the
      top level is a page with the root's id, and a row carries no drop
      target or the current one. */
  function FlatTree(data: Option<PagesData>, expanded: set<string>, dropTarget: Option<DropTarget>,
                    ghost rank: map<string, nat>): (r: seq<TreeItem>)
    requires data.Some? ==> Ranked(EnvOf(data.value, expanded, dropTarget), rank)
    ensures data.None? ==> r == []
    ensures data.Some? ==> forall it :: it in r ==>
              Resolves(EnvOf(data.value, expanded, dropTarget), it) &&
              (it.dropTarget.None? || it.dropTarget == dropTarget) &&
              (it.level == 0 ==> it.id == RootFolderId && it.kind.PageItem? && it.dropTarget.None?)
  {
    if data.None? then []
    else
      var env := EnvOf(data.value, expanded, dropTarget);
      VisitGood(env, RootFolderId, 0, None, 0, false, rank, RootBound(env, rank));
      Visit(env, RootFolderId, 0, None, 0, false, rank, RootBound(env, rank))
  }

  /** The root folder has no row of its own: its children are laid out
      from level 1, in the order of its `children`. */
  lemma RootChildrenFirst(data: PagesData, expanded: set<string>, dropTarget: Option<DropTarget>,
                          rank: map<string, nat>)
    requires Ranked(EnvOf(data, expanded, dropTarget), rank)
    requires RootFolderId in FolderMap(data.folders) && RootFolderId !in PageMap(data.pages, data.homePage)
    ensures var env := EnvOf(data, expanded, dropTarget);
      FlatTree(Some(data), expanded, dropTarget, rank)
      == VisitChildren(env, RootFolderId, env.folders[RootFolderId].children, 0, 1, rank, rank[RootFolderId])
  {
    var env := EnvOf(data, expanded, dropTarget);
    var bound := RootBound(env, rank);
    var below := Below(env, RootFolderId, 0, rank, bound);
    assert OwnRow(env, RootFolderId, 0, false) == [] && PageRow(env, RootFolderId, 0, false) == [];
    assert [] + below + [] == below;
  }

  /** A folder's row comes first among its rows, before any of its
      children, with `isExpanded` defined exactly when it has children and
      is nested, and then telling whether it is expanded. */
  lemma FolderRowFirst(env: Env, itemId: string, level: nat, parentId: Option<string>, index: nat, isLast: bool,
                       rank: map<string, nat>, bound: nat)
    requires Ranked(env, rank)
    requires level == 0 ==> itemId == RootFolderId
    requires itemId in env.folders && itemId != RootFolderId && rank[itemId] < bound
    ensures var r := Visit(env, itemId, level, parentId, index, isLast, rank, bound);
      |r| > 0 && r[0].id == itemId && r[0].level == level && r[0].kind == FolderItem(env.folders[itemId]) &&
      r[0].isLastChild == isLast &&
      (r[0].isExpanded.Some? <==> level > 0 && |env.folders[itemId].children| > 0) &&
      (r[0].isExpanded.Some? ==> (r[0].isExpanded.value <==> env.folders[itemId].id in env.expanded))
  {
    var own := OwnRow(env, itemId, level, isLast);
    assert own[0] == (own + Below(env, itemId, level, rank, bound) + PageRow(env, itemId, level, isLast))[0];
  }

  /** A folder shown collapsed (or without children) contributes its own row
      and nothing of its contents. */
  lemma CollapsedFolderAlone(env: Env, itemId: string, level: nat, parentId: Option<string>, index: nat,
                             isLast: bool, rank: map<string, nat>, bound: nat)
    requires Ranked(env, rank)
    requires level > 0 && itemId in env.folders && itemId != RootFolderId && itemId !in env.pages
    requires rank[itemId] < bound
    requires env.folders[itemId].id !in env.expanded || env.folders[itemId].children == []
    ensures var r := Visit(env, itemId, level, parentId, index, isLast, rank, bound);
      |r| == 1 && r[0].id == itemId && r[0].kind == FolderItem(env.folders[itemId]) &&
      r[0].isExpanded == (if env.folders[itemId].children == [] then None else Some(false)) &&
      (r[0].dropTarget.Some? <==> DropsHere(env.dropTarget, parentId, index))
  {
  }

  /** The row of the item a drop target points at carries it. */
  lemma DropTargetMarked(env: Env, itemId: string, level: nat, parentId: Option<string>, index: nat,
                         isLast: bool, rank: map<string, nat>, bound: nat)
    requires Ranked(env, rank)
    requires level == 0 ==> itemId == RootFolderId
    requires itemId in env.folders ==> rank[itemId] < bound
    requires DropsHere(env.dropTarget, parentId, index)
    requires itemId in env.pages || (itemId in env.folders && itemId != RootFolderId)
    ensures exists it :: it in Visit(env, itemId, level, parentId, index, isLast, rank, bound) &&
                         it.id == itemId && it.level == level && it.dropTarget == env.dropTarget
  {
    var r := Visit(env, itemId, level, parentId, index, isLast, rank, bound);
    if itemId in env.pages {
      assert r[|r| - 1] in r;
    } else {
      assert r[0] in r;
    }
  }

  lemma Associative<T>(a: seq<T>, b: seq<T>, c: seq<T>)
    ensures a + (b + c) == (a + b) + c
  {
  }

  lemma VisitChildrenUnfold(env: Env, parentId: string, children: seq<string>, k: nat, level: nat,
                             rank: map<string, nat>, bound: nat)
    requires Ranked(env, rank)
    requires level > 0 && k < |children|
    requires forall c :: c in children && c in env.folders ==> rank[c] < bound
    ensures VisitChildren(env, parentId, children, k, level, rank, bound)
            == Visit(env, children[k], level, Some(parentId), k, k == |children| - 1, rank, bound)
               + VisitChildren(env, parentId, children, k + 1, level, rank, bound)
  {
  }

  /** Patching the row at its position in the whole list patches the rows
      `traverse` appended. */
  lemma PatchAppended(prefix: seq<TreeItem>, rows: seq<TreeItem>, hasPage: bool, hasOwn: bool, drops: bool,
                      dropTarget: Option<DropTarget>, pos: nat)
    requires hasPage || hasOwn ==> |rows| > 0
    requires hasPage ==> pos == |prefix| + |rows| - 1
    requires !hasPage && hasOwn ==> pos == |prefix|
    ensures (hasPage || hasOwn) && drops ==>
              (prefix + rows)[pos := (prefix + rows)[pos].(dropTarget := dropTarget)]
              == prefix + Patch(rows, hasPage, hasOwn, drops, dropTarget)
    ensures !((hasPage || hasOwn) && drops) ==> prefix + rows == prefix + Patch(rows, hasPage, hasOwn, drops, dropTarget)
  {
  }

  /** `traverse`: appends its rows to `items` depth first, then marks the
      row it produced last (its page row, or else its folder row) when the
      drop target points at this position. */
  method Traverse(env: Env, itemId: string, level: nat, parentId: Option<string>, index: nat, isLast: bool,
                  ghost rank: map<string, nat>, ghost bound: nat, items: seq<TreeItem>) returns (out: seq<TreeItem>)
    requires Ranked(env, rank)
    requires level == 0 ==> itemId == RootFolderId
    requires itemId in env.folders ==> rank[itemId] < bound
    ensures out == items + Visit(env, itemId, level, parentId, index, isLast, rank, bound)
    decreases bound, 1
  {
    var treeItem: Option<nat>;
    out, treeItem := TraverseFolder(env, itemId, level, isLast, rank, bound, items);
    ghost var below := Below(env, itemId, level, rank, bound);
    ghost var own := OwnRow(env, itemId, level, isLast);
    ghost var pageRow := PageRow(env, itemId, level, isLast);
    ghost var rows := own + below + pageRow;
    assert out == items + own + below;
    if itemId in env.pages {
      out := out + [TreeItem(itemId, level, None, PageItem(env.pages[itemId]), isLast, None)];
      treeItem := Some(|out| - 1);
    }
    assert out == (items + own + below) + pageRow;
    Associative(items, own + below, pageRow);
    Associative(items, own, below);
    assert treeItem.Some? <==> pageRow != [] || own != [];
    assert treeItem.Some? ==> treeItem.value == if pageRow != [] then |items| + |rows| - 1 else |items|;
    PatchAppended(items, rows, pageRow != [], own != [], DropsHere(env.dropTarget, parentId, index), env.dropTarget,
                  if treeItem.Some? then treeItem.value else 0);
    assert Visit(env, itemId, level, parentId, index, isLast, rank, bound)
           == Patch(rows, pageRow != [], own != [], DropsHere(env.dropTarget, parentId, index), env.dropTarget);
    if treeItem.Some? && DropsHere(env.dropTarget, parentId, index) {
      out := out[treeItem.value := out[treeItem.value].(dropTarget := env.dropTarget)];
    }
  }

  /** The folder branch of `traverse`: the folder's row (unless it is the
      root), then, when the folder is open, its children's rows; `treeItem`
      is the position of the folder's row. */
  method TraverseFolder(env: Env, itemId: string, level: nat, isLast: bool,
                        ghost rank: map<string, nat>, ghost bound: nat, items: seq<TreeItem>)
    returns (out: seq<TreeItem>, treeItem: Option<nat>)
    requires Ranked(env, rank)
    requires level == 0 ==> itemId == RootFolderId
    requires itemId in env.folders ==> rank[itemId] < bound
    ensures out == items + OwnRow(env, itemId, level, isLast) + Below(env, itemId, level, rank, bound)
    ensures treeItem.Some? <==> OwnRow(env, itemId, level, isLast) != []
    ensures treeItem.Some? ==> treeItem.value == |items|
    decreases bound, 0
  {
    out := items;
    treeItem := None;
    if itemId in env.folders {
      var folder := env.folders[itemId];
      var isExpanded: Option<bool> := None;
      if level > 0 && |folder.children| > 0 {
        isExpanded := Some(folder.id in env.expanded);
      }
      assert isExpanded == ExpandedState(env, itemId, level);
      if itemId != RootFolderId {
        out := out + [TreeItem(itemId, level, isExpanded, FolderItem(folder), isLast, None)];
        treeItem := Some(|out| - 1);
      }
      assert out == items + OwnRow(env, itemId, level, isLast);
      if level == 0 || isExpanded == Some(true) {
        assert Opens(env, itemId) && ChildrenBelow(env, rank, itemId, rank[itemId]);
        out := TraverseChildren(env, itemId, folder.children, level + 1, rank, rank[itemId], out);
      }
    }
  }

  /** The loop of `traverse` over a folder's children. */
  method TraverseChildren(env: Env, parentId: string, children: seq<string>, level: nat,
                          ghost rank: map<string, nat>, ghost bound: nat, items: seq<TreeItem>)
    returns (out: seq<TreeItem>)
    requires Ranked(env, rank)
    requires level > 0
    requires forall c :: c in children && c in env.folders ==> rank[c] < bound
    ensures out == items + VisitChildren(env, parentId, children, 0, level, rank, bound)
    decreases bound, 2
  {
    out := items;
    for k := 0 to |children|
      invariant out + VisitChildren(env, parentId, children, k, level, rank, bound)
                == items + VisitChildren(env, parentId, children, 0, level, rank, bound)
    {
      ghost var here := Visit(env, children[k], level, Some(parentId), k, k == |children| - 1, rank, bound);
      ghost var rest := VisitChildren(env, parentId, children, k + 1, level, rank, bound);
      VisitChildrenUnfold(env, parentId, children, k, level, rank, bound);
      var next := Traverse(env, children[k], level, Some(parentId), k, k == |children| - 1, rank, bound, out);
      Associative(out, here, rest);
      out := next;
    }
  }

  /** `$flatPagesTree` computed: the traversal from the root folder. */
  method FlatPagesTree(data: Option<PagesData>, expanded: set<string>, dropTarget: Option<DropTarget>,
                       ghost rank: map<string, nat>) returns (r: seq<TreeItem>)
    requires data.Some? ==> Ranked(EnvOf(data.value, expanded, dropTarget), rank)
    ensures r == FlatTree(data, expanded, dropTarget, rank)
  {
    r := [];
    if data.None? {
      return;
    }
    var folders := FolderMap(data.value.folders);
    var pages := PageList(data.value.pages);
    pages := pages[data.value.homePage.id := data.value.homePage];
    var env := Env(folders, pages, expanded, dropTarget);
    r := Traverse(env, RootFolderId, 0, None, 0, false, rank, RootBound(env, rank), r);
  }

  /** `folders.some(folder => folder.id === id)`. */
  function HasFolder(folders: seq<Folder>, id: string): (r: bool)
    ensures r <==> exists f :: f in folders && f.id == id
  {
    if folders == [] then false
    else
      assert forall f :: f in folders <==> f == folders[0] || f in folders[1..];
      folders[0].id == id || HasFolder(folders[1..], id)
  }

  /** `isFolder`: the folder being created counts as a folder. */
  function IsFolder(id: string, folders: seq<Folder>): (r: bool)
    ensures r <==> id == NewFolderId || id in FolderMap(folders)
  {
    id == NewFolderId || HasFolder(folders, id)
  }

  /** `handleExpand`: adds every item to the expanded set, or removes each. */
  method HandleExpand(expanded: set<string>, items: seq<string>, isExpanded: bool) returns (r: set<string>)
    ensures isExpanded ==> r == expanded + (set x | x in items)
    ensures !isExpanded ==> r == expanded - (set x | x in items)
  {
    r := expanded;
    for k := 0 to |items|
      invariant isExpanded ==> r == expanded + (set x | x in items[..k])
      invariant !isExpanded ==> r == expanded - (set x | x in items[..k])
    {
      assert forall x :: x in items[..k + 1] <==> x in items[..k] || x == items[k];
      if isExpanded {
        r := r + {items[k]};
      } else {
        r := r - {items[k]};
      }
    }
    assert items[..|items|] == items;
  }

  /** Collapsing a folder hides its contents on the next traversal. */
  lemma CollapseHides(env: Env, folderId: string, level: nat, parentId: Option<string>, index: nat,
                      isLast: bool, rank: map<string, nat>, bound: nat)
    requires Ranked(env, rank)
    requires level > 0 && folderId in env.folders && folderId != RootFolderId && folderId !in env.pages
    requires env.folders[folderId].id == folderId
    requires rank[folderId] < bound
    ensures var collapsed := env.(expanded := env.expanded - {folderId});
      Ranked(collapsed, rank) &&
      |Visit(collapsed, folderId, level, parentId, index, isLast, rank, bound)| == 1
  {
    var collapsed := env.(expanded := env.expanded - {folderId});
    CollapsedFolderAlone(collapsed, folderId, level, parentId, index, isLast, rank, bound);
  }
}
