/**
 * The page script's state and its event handlers: the map of records, the
 * current folder, filter and search, and the set of folders expanded in the
 * navigation tree, together with what the page shows of them.
 */
module Explorer {
  import opened Records
  import opened Serializer
  import opened Hierarchy
  import opened Browse

  /** `fileData.find(item => !item.parent_id)`: the index of the first record with no parent id. */
  function FirstRoot(data: seq<Record>): (r: Option<nat>)
    ensures r.Some? ==> r.value < |data| && data[r.value].parentId.None?
    ensures r.Some? ==> forall j :: 0 <= j < r.value ==> data[j].parentId.Some?
    ensures r.None? ==> forall j :: 0 <= j < |data| ==> data[j].parentId.Some?
  {
    if data == [] then None
    else if data[0].parentId.None? then Some(0)
    else
      match FirstRoot(data[1..])
      case None => None
      case Some(k) => Some(k + 1)
  }

  /** The ids the Expand Nav button adds: those of the folder records with children. */
  function Expandable(data: seq<Record>): (r: set<ItemId>)
    ensures forall q :: q in r <==> exists k :: 0 <= k < |data| && data[k].id == q && data[k].isDir && data[k].children != []
  {
    if data == [] then {}
    else
      var x := data[|data| - 1];
      var init := data[..|data| - 1];
      var r := Expandable(init) + (if x.isDir && x.children != [] then {x.id} else {});
      assert forall k :: 0 <= k < |init| ==> init[k] == data[k];
      r
  }

  /** The loop of the Expand Nav handler over `fileData`. */
  method ExpandableIds(data: seq<Record>) returns (ids: set<ItemId>)
    ensures ids == Expandable(data)
  {
    ids := {};
    var k := 0;
    while k < |data|
      invariant 0 <= k <= |data| && ids == Expandable(data[..k])
    {
      assert data[..k + 1][..k] == data[..k];
      if data[k].isDir && data[k].children != [] {
        ids := ids + {data[k].id};
      }
      k := k + 1;
    }
    assert data[..|data|] == data;
  }

  /** A click on a folder's toggle: the folder flips between expanded and collapsed, no other does. */
  function Toggled(expanded: set<ItemId>, id: ItemId): (r: set<ItemId>)
    ensures id in r <==> id !in expanded
    ensures forall q :: q != id ==> (q in r <==> q in expanded)
  {
    if id in expanded then expanded - {id} else expanded + {id}
  }

  /** Two clicks on the same toggle restore the set. */
  lemma ToggleTwice(expanded: set<ItemId>, id: ItemId)
    ensures Toggled(Toggled(expanded, id), id) == expanded
  {
    var r := Toggled(Toggled(expanded, id), id);
    forall q ensures q in r <==> q in expanded {
    }
  }

  /**
   * The Expand Nav button: when everything is expanded it empties the set and
   * clears the flag; otherwise it adds every folder with children and sets it.
   */
  function ExpandNavPressed(expanded: set<ItemId>, allExpanded: bool, data: seq<Record>)
    : (r: (set<ItemId>, bool))
    ensures r.1 == !allExpanded
    ensures allExpanded ==> r.0 == {}
    ensures !allExpanded ==> expanded <= r.0
  {
    if allExpanded then ({}, false) else (expanded + Expandable(data), true)
  }

  /**
   * Pressed while not everything is expanded, the button expands every folder
   * record with children and nothing else that was not already expanded.
   */
  lemma ExpandNavExpands(expanded: set<ItemId>, data: seq<Record>)
    ensures var r := ExpandNavPressed(expanded, false, data).0;
      forall k :: 0 <= k < |data| && data[k].isDir && data[k].children != [] ==> data[k].id in r
    ensures var r := ExpandNavPressed(expanded, false, data).0;
      forall q :: q in r ==> q in expanded || exists k :: 0 <= k < |data| && data[k].id == q && data[k].isDir && data[k].children != []
  {
  }

  /** The branches of the Expand Nav handler, computing the new set and flag. */
  method NextExpandState(expanded: set<ItemId>, allExpanded: bool, data: seq<Record>)
    returns (next: set<ItemId>, nextAll: bool)
    ensures (next, nextAll) == ExpandNavPressed(expanded, allExpanded, data)
  {
    if allExpanded {
      next := {};
      nextAll := false;
    } else {
      var ids := ExpandableIds(data);
      next := expanded + ids;
      nextAll := true;
    }
  }

  /** Pressing Expand Nav twice from the collapsed state leaves nothing expanded. */
  lemma ExpandNavTwice(expanded: set<ItemId>, data: seq<Record>)
    ensures var once := ExpandNavPressed(expanded, false, data);
      once.1 && ExpandNavPressed(once.0, once.1, data) == ({}, false)
  {
  }

  /** What the folder pane's header shows: the folder's path, or its name when the path is empty. */
  function Breadcrumb(folder: Record): (r: string)
    ensures folder.path != [] ==> r == folder.path
    ensures folder.path == [] ==> r == folder.name
  {
    if folder.path != [] then folder.path else folder.name
  }

  /** The map is the one `buildHierarchy` builds from the data, and the tree can be drawn from it. */
  ghost predicate Ready(data: seq<Record>, m: map<ItemId, Record>)
  {
    m == ItemMap(data) && NavReady(data, m)
  }

  /** The breadcrumb, the title and the statistics bar show `folder`. */
  ghost predicate HeaderShows(m: map<ItemId, Record>, folder: Record, crumb: string, title: string, stats: Option<Stats>)
  {
    crumb == Breadcrumb(folder) && title == folder.name && stats == Some(FolderStats(m, folder.children))
  }

  /** The page: the script's variables and the parts of the document its handlers redraw. */
  class Page {
    const fileData: seq<Record>
    /** `window.itemMap`, built once when the page loads. */
    const itemMap: map<ItemId, Record>
    var currentFilter: Filter
    var currentSearch: string
    var expandedFolders: set<ItemId>
    var currentFolderId: Option<ItemId>
    var allExpanded: bool

    /** The rows of the navigation tree. */
    var navRows: seq<NavRow>
    /** The breadcrumb path, the folder title, the file list and the statistics bar. */
    var breadcrumb: string
    var folderTitle: string
    var fileList: Contents
    var folderStats: Option<Stats>

    /** The folder pane's header shows the current folder when it is a key of the map. */
    ghost predicate ShowsHeader()
      reads this`currentFolderId, this`breadcrumb, this`folderTitle, this`folderStats
    {
      currentFolderId.Some? && currentFolderId.value in itemMap ==>
        HeaderShows(itemMap, itemMap[currentFolderId.value], breadcrumb, folderTitle, folderStats)
    }

    /** The file list shows the current folder's children under the current search and filter. */
    ghost predicate ShowsList()
      reads this`currentFolderId, this`currentFilter, this`currentSearch, this`fileList
    {
      currentFolderId.Some? && currentFolderId.value in itemMap ==>
        fileList == FolderContents(itemMap, itemMap[currentFolderId.value], currentFilter, currentSearch)
    }

    /** When the current folder is a key of the map, the folder pane shows it under the current search and filter. */
    ghost predicate ShowsCurrent()
      reads this`currentFolderId, this`currentFilter, this`currentSearch
      reads this`breadcrumb, this`folderTitle, this`fileList, this`folderStats
    {
      ShowsHeader() && ShowsList()
    }

    /** The tree shows the top-level records, opened where the folders are expanded. */
    ghost predicate ShowsTree()
      reads this`navRows, this`expandedFolders
    {
      Ready(fileData, itemMap) && navRows == NavList(fileData, itemMap, expandedFolders)
    }

    /** The map is the one `buildHierarchy` builds, and the page shows the current state. */
    ghost predicate Valid()
      reads this
    {
      ShowsTree() && ShowsCurrent()
    }

    /**
     * Loading the page: the script's variables take their declared values,
     * the pane shows the root path and name the generator wrote into it, and
     * `initExplorer` runs: `buildHierarchy` here, the rest in `InitExplorer`.
     */
    constructor (data: seq<Record>, rootPath: string, rootName: string)
      requires NavReady(data, ItemMap(data))
      ensures fileData == data && Valid()
      ensures currentFilter == All && currentSearch == "" && expandedFolders == {} && !allExpanded
      ensures FirstRoot(data).None? ==> currentFolderId.None? && breadcrumb == rootPath && folderTitle == rootName
      ensures FirstRoot(data).Some? ==> currentFolderId == Some(data[FirstRoot(data).value].id)
    {
      fileData := data;
      var m := BuildHierarchy(data);
      itemMap := m;
      currentFilter := All;
      currentSearch := "";
      expandedFolders := {};
      currentFolderId := None;
      allExpanded := false;
      navRows := [];
      breadcrumb := rootPath;
      folderTitle := rootName;
      fileList := Shown([]);
      folderStats := None;
      new;
      InitExplorer();
    }

    /** The rest of `initExplorer`: draw the tree and open the first top-level record. */
    method InitExplorer()
      requires Ready(fileData, itemMap) && currentFolderId.None?
      modifies this`navRows, this`currentFolderId, this`breadcrumb, this`folderTitle, this`fileList, this`folderStats
      ensures Valid()
      ensures FirstRoot(fileData).None? ==>
                currentFolderId.None? && breadcrumb == old(breadcrumb) && folderTitle == old(folderTitle)
      ensures FirstRoot(fileData).Some? ==> currentFolderId == Some(fileData[FirstRoot(fileData).value].id)
    {
      RenderNavTree();
      var root := FirstRoot(fileData);
      if root.Some? {
        NavigateToFolder(fileData[root.value].id);
      }
    }

    /** `renderNavTree`: redraw the tree from the top-level records. */
    method RenderNavTree()
      requires Ready(fileData, itemMap)
      modifies this`navRows
      ensures ShowsTree()
    {
      navRows := NavList(fileData, itemMap, expandedFolders);
    }

    /** `renderFolderContents`: the placeholder for a folder without children, else the children that pass. */
    method RenderFolderContents(folder: Record)
      modifies this`fileList
      ensures fileList == FolderContents(itemMap, folder, currentFilter, currentSearch)
    {
      if folder.children == [] {
        fileList := EmptyFolder;
      } else {
        var shown := ShownChildren(itemMap, folder.children, currentFilter, currentSearch);
        fileList := Shown(shown);
      }
    }

    /**
     * `navigateToFolder`: the id becomes the current folder whether or not it
     * is a key of the map; only when it is does the pane change, to show it
     * (`updateFolderStats` is the last assignment).
     */
    method NavigateToFolder(id: ItemId)
      requires ShowsTree()
      modifies this`currentFolderId, this`breadcrumb, this`folderTitle, this`fileList, this`folderStats
      ensures Valid() && currentFolderId == Some(id)
      ensures id !in itemMap ==>
                breadcrumb == old(breadcrumb) && folderTitle == old(folderTitle)
                && fileList == old(fileList) && folderStats == old(folderStats)
    {
      currentFolderId := Some(id);
      if id in itemMap {
        ShowFolder(itemMap[id]);
      }
    }

    /** The part of `navigateToFolder` that redraws the pane for a folder found in the map. */
    method ShowFolder(folder: Record)
      modifies this`breadcrumb, this`folderTitle, this`fileList, this`folderStats
      ensures HeaderShows(itemMap, folder, breadcrumb, folderTitle, folderStats)
      ensures fileList == FolderContents(itemMap, folder, currentFilter, currentSearch)
    {
      breadcrumb := Breadcrumb(folder);
      folderTitle := folder.name;
      RenderFolderContents(folder);
      folderStats := Some(FolderStats(itemMap, folder.children));
    }

    /**
     * A click on a row of the tree or on a folder in the file list: it opens
     * the record when the record is a folder, and does nothing otherwise.
     */
    method OpenFolder(id: ItemId)
      requires Valid()
      modifies this`currentFolderId, this`breadcrumb, this`folderTitle, this`fileList, this`folderStats
      ensures Valid()
      ensures id in itemMap && itemMap[id].isDir ==> currentFolderId == Some(id)
      ensures !(id in itemMap && itemMap[id].isDir) ==>
                currentFolderId == old(currentFolderId) && breadcrumb == old(breadcrumb)
                && folderTitle == old(folderTitle) && fileList == old(fileList) && folderStats == old(folderStats)
    {
      if id in itemMap && itemMap[id].isDir {
        NavigateToFolder(id);
      }
    }

    /** A click on a folder's toggle: only that folder flips, and the tree is redrawn. */
    method ToggleFolder(id: ItemId)
      requires Valid()
      modifies this`expandedFolders, this`navRows
      ensures Valid()
      ensures expandedFolders == Toggled(old(expandedFolders), id)
    {
      expandedFolders := Toggled(expandedFolders, id);
      RedrawTree();
    }

    /** The Expand Nav button. */
    method ToggleExpandNav()
      requires Valid()
      modifies this`expandedFolders, this`allExpanded, this`navRows
      ensures Valid()
      ensures expandedFolders == ExpandNavPressed(old(expandedFolders), old(allExpanded), fileData).0
      ensures allExpanded == !old(allExpanded)
    {
      var expanded, all := NextExpandState(expandedFolders, allExpanded, fileData);
      SetExpandState(expanded, all);
      RedrawTree();
    }

    /** The tree redrawn after its folders' state changed; the folder pane already shows the current folder. */
    method RedrawTree()
      requires Ready(fileData, itemMap) && ShowsCurrent()
      modifies this`navRows
      ensures Valid()
    {
      RenderNavTree();
    }

    /** Stores the new state of the tree's folders; the folder pane is untouched. */
    method SetExpandState(expanded: set<ItemId>, all: bool)
      requires ShowsCurrent()
      modifies this`expandedFolders, this`allExpanded
      ensures ShowsCurrent() && expandedFolders == expanded && allExpanded == all
    {
      expandedFolders := expanded;
      allExpanded := all;
    }

    /** Typing in the search box: the file list of the current folder is redrawn under the new search. */
    method SetSearch(value: string)
      requires Valid()
      modifies this`currentSearch, this`fileList
      ensures Valid() && currentSearch == value
      ensures !(currentFolderId.Some? && currentFolderId.value in itemMap) ==> fileList == old(fileList)
    {
      currentSearch := value;
      assert ShowsTree() && ShowsHeader();
      RedrawList();
    }

    /** The clear button of the search box. */
    method ClearSearch()
      requires Valid()
      modifies this`currentSearch, this`fileList
      ensures Valid() && currentSearch == ""
      ensures !(currentFolderId.Some? && currentFolderId.value in itemMap) ==> fileList == old(fileList)
    {
      SetSearch("");
    }

    /** A filter button: the filter becomes the one its `data-filter` value selects, and the current folder's list is redrawn under it. */
    method SetFilter(value: string)
      requires Valid()
      modifies this`currentFilter, this`fileList
      ensures Valid() && currentFilter == FilterOf(value)
      ensures !(currentFolderId.Some? && currentFolderId.value in itemMap) ==> fileList == old(fileList)
    {
      currentFilter := FilterOf(value);
      assert ShowsTree() && ShowsHeader();
      RedrawList();
    }

    /** The file list of the current folder, when it is a key of the map, redrawn under the current search and filter. */
    method RedrawList()
      requires ShowsTree() && ShowsHeader()
      modifies this`fileList
      ensures Valid()
      ensures !(currentFolderId.Some? && currentFolderId.value in itemMap) ==> fileList == old(fileList)
    {
      if currentFolderId.Some? && currentFolderId.value in itemMap {
        RenderFolderContents(itemMap[currentFolderId.value]);
      }
    }
  }
}
