# macsnap2html: the directory snapshot and its browsing engine, in Dafny

macsnap2html walks a directory tree and writes a single HTML page that can
browse a snapshot of that tree offline. This project models the two halves
of that page's logic and proves what each promises, and what they promise
together:

- **The generator (Python).**
  - `DirectoryScanner` walks an in-memory tree (`FileTree.Entry`) and fills
    its record list and counters in place (`Scanner.DirectoryScanner`).
    A scan works like this:
    - it lists each directory, dropping '.', '~' and '$' names unless hidden
      entries are included;
    - it sorts subdirectories and files case-insensitively and emits them in
      pre-order;
    - it numbers the records "dir_k"/"file_k";
    - it measures folder sizes;
    - finally it links every record to its parent's `children`.
  - `format_size` chooses a unit (`Sizes`).
  - `get_file_icon_class` maps an extension to an icon class (`Icons`).
  - The generator projects the records into the embedded `fileData` and
    chooses the page title (`Serializer`).
- **The page script (JavaScript).**
  - `buildHierarchy` rebuilds the children from the embedded records
    (`Hierarchy`).
  - `shouldShowItem`, the folder pane, its statistics bar and the navigation
    tree are modelled in `Browse`.
  - `Explorer.Page` is a class holding the script's variables and the parts
    of the page its handlers redraw. Each event handler is a method that
    keeps the page showing its state.
- **The two together.** `Agreement` proves the connections:
  - the map the page builds from a scan holds every record unchanged;
  - the navigation tree can always be drawn from that map;
  - the page opens the first record;
  - a folder's statistics bar counts that folder's listing;
  - the filter buttons and the icon classes agree, or differ, at the
    extensions shown below.
- **The progress count.** `Progress` compares the progress total the scan
  computes with the number of records the scan then makes.

Record ids are the pair (kind, counter). Their text "dir_k"/"file_k" is
`Records.IdText`, which is proved injective, so comparing ids as pairs is the
same as comparing them as text. Strings are sequences of characters, and
lower-casing is ASCII only. Where the description of the program and its code
differ, the model follows the code:
- The Expand Nav button adds the folders with children to the expanded set;
  it does not replace the set.
- A folder whose children are all filtered out shows an empty list, not the
  "This folder is empty" placeholder.

## Model

| member | source | states |
|---|---|---|
| Sizes.FormatSize | macsnap2html_gui.py:18-27 | the division loop returns the reference value `FormattedSize`: "0 B" exactly for zero bytes, otherwise the size scaled into one of B, KB, MB, GB, TB |
| Sizes.UnitIndex | macsnap2html_gui.py:22-26 | the unit chosen is the largest one the size reaches, capped at TB |
| Sizes.ScaledRange | macsnap2html_gui.py:24-27 | a non-zero size is shown as a value of at least 1, and below 1024 unless it is past the TB range |
| Sizes.FormattedSizeExamples | macsnap2html_gui.py:18-27 | 1536 bytes read as 1.5 KB and 1 GiB as 1.0 GB |
| Icons.SplitExt | macsnap2html_gui.py:34 | `splitext` splits the name into base and extension whose concatenation is the name; the extension starts at the last dot and holds no other dot, and a name led only by dots has none |
| Icons.SplitExtExamples | macsnap2html_gui.py:34 | ".bashrc" and "..a" have no extension; "archive.tar.gz" has ".gz" |
| Icons.IconForTable | macsnap2html_gui.py:36-57 | the lookup yields one of the table's classes or the default "file", and the default exactly for an extension the table does not hold |
| Icons.IconClass | macsnap2html_gui.py:29-57 | the class is "folder" exactly for a directory |
| Icons.NoExtensionIsGeneric | macsnap2html_gui.py:57 | a file without an extension gets the default class "file" |
| Icons.IconClassExample | macsnap2html_gui.py:34-57 | the extension is lower-cased before lookup: "Photo.JPG" gets "image" |
| Records.IdTextInjective | macsnap2html_gui.py:137 | two ids with the same text "dir_k"/"file_k" are the same id |
| Records.CountsCoverItems | macsnap2html_gui.py:159-198 | every record is counted once, as a folder or as a file |
| FileTree.WalkFolderSize | macsnap2html_gui.py:67-81 | summing the files `os.walk` yields, skipping '~' and '$' names, gives the recursive folder size |
| FileTree.ListedOf | macsnap2html_gui.py:107-111 | the listing keeps exactly the entries whose names pass the filter, in order, and keeps everything when hidden entries are included |
| FileTree.SortByName | macsnap2html_gui.py:125-126 | the sort by lower-cased name returns a sorted permutation of its input |
| FileTree.ListedDirs | macsnap2html_gui.py:107-125 | `dirs` is sorted and holds exactly the listed subdirectories |
| FileTree.ListedFiles | macsnap2html_gui.py:107-126 | `files` is sorted and holds exactly the listed files |
| Listings.ListingOrder | macsnap2html_gui.py:125-204 | a directory's records list its subdirectories before its files, each group in case-insensitive order |
| Listings.ListingMembers | macsnap2html_gui.py:107-123 | a directory's listing shows exactly the entries that pass the filter |
| Scanner.DirectoryScanner.constructor | macsnap2html_gui.py:60-65 | a new scanner has no records and zero counters |
| Scanner.DirectoryScanner.CalculateFolderSize | macsnap2html_gui.py:67-81 | the nested walk loops return the folder size of the directory |
| Scanner.DirectoryScanner.ProcessDirectory | macsnap2html_gui.py:103-210 | one call appends exactly `Process` of the directory to the records and keeps the counters equal to the record counts |
| Scanner.DirectoryScanner.AppendDirs | macsnap2html_gui.py:129-167 | the directory loop appends the records of each subdirectory in turn, counters kept |
| Scanner.DirectoryScanner.AppendDir | macsnap2html_gui.py:129-164 | a subdirectory's record, with its folder size, is appended and counted, then its own subtree follows one level down |
| Scanner.DirectoryScanner.AppendFiles | macsnap2html_gui.py:170-204 | the file loop appends one record per listed file, counters kept |
| Scanner.DirectoryScanner.AppendFile | macsnap2html_gui.py:170-201 | a file's record is appended; the file count and the byte total grow by one file and its size |
| Scanner.DirectoryScanner.LinkChildren | macsnap2html_gui.py:212-217 | linking leaves the records equal to `Linked` of the old list and the counters unchanged |
| Scanner.DirectoryScanner.IndexRecords | macsnap2html_gui.py:212 | `item_map` maps each id to the position of its last record |
| Scanner.DirectoryScanner.ScanDirectory | macsnap2html_gui.py:83-217 | a scan resets the counters and the list, then leaves `Scanned` of the tree, with `total_folders`, `total_files` and `total_size` equal to the folder count, the file count and the file bytes of the list |
| Scanner.SplitKinds | macsnap2html_gui.py:113-123 | the listing is split into directories and files, each in listing order |
| Scanner.LinkAll | macsnap2html_gui.py:213-217 | the link loop over the list returns `Linked` of the list |
| Scanner.ScanBase | macsnap2html_gui.py:103-217 | the records before linking form one block from the root, and linking changes only `children` |
| Scanner.ScanIds | macsnap2html_gui.py:137-180 | record k has id "dir_k" or "file_k" by its kind, so no two records share an id |
| Scanner.ScanParents | macsnap2html_gui.py:103-163 | a record without a parent sits at level 0; a record with a parent names an earlier directory record one level up |
| Scanner.ScanContiguous | macsnap2html_gui.py:129-164 | a directory's descendants are contiguous: every record between a directory and one of its children lies deeper |
| Scanner.ScanChildren | macsnap2html_gui.py:212-217 | after linking, each record's children are the ids of the records naming it as parent, in list order, and a file has none |
| Scanner.ScanVisits | macsnap2html_gui.py:103-204 | record k shows the k-th entry of the scan's visiting order (the listed subdirectories in sorted order, each followed by its own contents, then the listed files), and that entry lies inside the root |
| Scanner.ScanListings | macsnap2html_gui.py:106-204 | under the record of the k-th visited entry hang exactly the records of that directory's own listing, subdirectories then files, each sorted; the top-level records are the root's listing, and a file root gives none |
| Scanner.ScanFiltered | macsnap2html_gui.py:107-111 | without hidden entries, no recorded name starts with '.', '~' or '$' |
| Serializer.Serialize | macsnap2html_gui.py:226-241 | `js_data` holds one embedded record per scanner record, in order |
| Serializer.RestoreProject | macsnap2html_gui.py:226-241 | the embedded record loses only `full_path`: restoring it gives back the scanner record, and `size` is the formatted size |
| Serializer.ProjectInjective | macsnap2html_gui.py:226-241 | two scanner records with the same embedded form differ at most in `full_path` |
| Serializer.DefaultTitle | macsnap2html_gui.py:222-224 | a non-empty title wins; otherwise the last path component after trailing separators are stripped, or the path itself when that is empty; the result is empty only when both are |
| Serializer.DefaultTitleLastComponent | macsnap2html_gui.py:222-224 | without a title the page is named after a component with no '/' and no trailing separator, or after the path |
| Serializer.DefaultTitleExamples | macsnap2html_gui.py:222-224 | "/home/ann/" is titled "ann", "/" stays "/", and "C:\Data\" becomes "C:\Data" on a POSIX path split |
| Records.IndexOf | macsnap2html_gui.py:212 | storing records by id in order, as the dict comprehension `item_map` and the script's `window.itemMap` both do, leaves every record's id as a key, each at the position of a record with that id |
| Records.IndexOfLast | macsnap2html_gui.py:877-879 | no record after the indexed one has the same id: a later record replaces an earlier one |
| Hierarchy.ParentedIdsMembership | macsnap2html_gui.py:881-886 | an id is pushed onto `q` exactly when some record with that id names `q` as parent |
| Hierarchy.HierarchyEntries | macsnap2html_gui.py:874-889 | every record's id is a key, and a key's entry is the last record with that id with the children the rebuild gives it |
| Hierarchy.CopyRecords | macsnap2html_gui.py:877-879 | the first loop copies every record with its children emptied |
| Hierarchy.PushChildren | macsnap2html_gui.py:881-886 | the second loop pushes each record's id onto its parent's children, in list order |
| Hierarchy.BuildHierarchy | macsnap2html_gui.py:874-889 | `buildHierarchy` builds exactly `ItemMap` of the data |
| Browse.ShouldShow | macsnap2html_gui.py:1038-1065 | a record is shown only if its name contains the search, ignoring case; then "all" shows it, "folders" and "files" by kind, and a category only a file whose lower-cased extension is in that category's list (each an if-and-only-if); any other filter string shows nothing |
| Browse.FilterOf | macsnap2html_gui.py:807-813 | a `data-filter` string selects the button whose value it is, or `Other` when it is none of the seven |
| Browse.FilterOfName | macsnap2html_gui.py:807-813 | reading a button's value gives back that button, and `Other` comes exactly from strings that are no button's value |
| Browse.SearchNarrows | macsnap2html_gui.py:1039-1044 | a search only hides records |
| Browse.SearchIgnoresCase | macsnap2html_gui.py:1040-1041 | the case of the typed search does not matter |
| Browse.FoldersAndFilesSplit | macsnap2html_gui.py:1046-1048 | "folders" and "files" split what "all" shows, with nothing in common |
| Browse.VisibleSpec | macsnap2html_gui.py:975-982 | the list keeps the children in order and holds exactly those that are keys of the map and pass the search and filter |
| Browse.FolderContents | macsnap2html_gui.py:968-983 | the pane shows the placeholder exactly when the folder has no children |
| Browse.ShownChildren | macsnap2html_gui.py:976-982 | the loop draws the visible children |
| Browse.FolderStats | macsnap2html_gui.py:1003-1016 | the total is the number of children; folders plus files equal it when every child is a key of the map |
| Browse.StatsCountShown | macsnap2html_gui.py:1005-1012 | the folder and file counts are what "folders" and "files" would list with no search, and together what "all" would list |
| Browse.NavItem | macsnap2html_gui.py:900-913 | an item's first row is its own at its level, all later rows are deeper, and a collapsed item or a file has only its own row |
| Browse.NavKids | macsnap2html_gui.py:904-911 | the children's rows are all at least one level below the parent |
| Browse.NavItemChildren | macsnap2html_gui.py:904-911 | an expanded folder's rows one level down are its children that are keys of the map, in order |
| Browse.NavListTop | macsnap2html_gui.py:891-898 | the tree's level-0 rows are the top-level records, in data order |
| Browse.NavListCollapsed | macsnap2html_gui.py:891-913 | with nothing expanded the tree is one level-0 row per top-level record |
| Explorer.FirstRoot | macsnap2html_gui.py:866 | `find` returns the first record without a parent, or none when every record has one |
| Explorer.Expandable | macsnap2html_gui.py:1146-1150 | the ids added are exactly those of folder records with children |
| Explorer.ExpandableIds | macsnap2html_gui.py:1146-1150 | the handler's loop collects `Expandable` of the data |
| Explorer.Toggled | macsnap2html_gui.py:1073-1079 | the clicked folder flips between expanded and collapsed, and no other changes |
| Explorer.ToggleTwice | macsnap2html_gui.py:1073-1079 | two clicks on the same toggle restore the set |
| Explorer.ExpandNavPressed | macsnap2html_gui.py:1140-1155 | the flag flips; from expanded the set empties, otherwise it only grows |
| Explorer.ExpandNavExpands | macsnap2html_gui.py:1146-1150 | expanding adds every folder with children and nothing else |
| Explorer.NextExpandState | macsnap2html_gui.py:1141-1152 | the handler's branches compute the new set and flag |
| Explorer.ExpandNavTwice | macsnap2html_gui.py:1140-1155 | pressed twice from collapsed, nothing is expanded and the flag is clear |
| Explorer.Breadcrumb | macsnap2html_gui.py:947 | the breadcrumb is the folder's path, or its name when the path is empty |
| Explorer.Page.constructor | macsnap2html_gui.py:843-873 | loading the page sets the declared initial values and builds the map; it opens the first top-level record, or keeps the root path and name written into the page when there is none |
| Explorer.Page.InitExplorer | macsnap2html_gui.py:861-873 | the tree is drawn and the first top-level record becomes the current folder |
| Explorer.Page.RenderNavTree | macsnap2html_gui.py:891-898 | the tree shows `NavList` of the data under the expanded set |
| Explorer.Page.RenderFolderContents | macsnap2html_gui.py:968-983 | the file list becomes `FolderContents` of the folder under the current filter and search |
| Explorer.Page.NavigateToFolder | macsnap2html_gui.py:941-966 | the id becomes current whether or not it is a key; only a key redraws the header, list and statistics |
| Explorer.Page.ShowFolder | macsnap2html_gui.py:946-964 | the breadcrumb, title, list and statistics show the folder |
| Explorer.Page.OpenFolder | macsnap2html_gui.py:1080-1097 | a click opens a record only when it is a folder in the map, and otherwise changes nothing |
| Explorer.Page.ToggleFolder | macsnap2html_gui.py:1073-1079 | only the clicked folder flips, and the tree is redrawn |
| Explorer.Page.ToggleExpandNav | macsnap2html_gui.py:1140-1155 | the set and flag become `ExpandNavPressed` of the old ones, and the tree is redrawn |
| Explorer.Page.SetExpandState | macsnap2html_gui.py:1141-1152 | storing the new set and flag leaves the folder pane as it was |
| Explorer.Page.SetSearch | macsnap2html_gui.py:1100-1109 | the search takes the typed value and the current folder's list is redrawn under it; with no current folder in the map the list is left as it was |
| Explorer.Page.ClearSearch | macsnap2html_gui.py:1111-1122 | the search becomes empty and the list is redrawn; with no current folder in the map the list is left as it was |
| Explorer.Page.SetFilter | macsnap2html_gui.py:1125-1137 | the filter becomes the one the button's `data-filter` string selects and the current folder's list is redrawn under it; with no current folder in the map the list is left as it was |
| Agreement.ParentedIdsSerialized | macsnap2html_gui.py:881-886 | the script pushes onto each record the same children the scanner linked to it |
| Agreement.ItemMapOfLinked | macsnap2html_gui.py:874-889 | on numbered, linked records the map's keys are exactly the records' ids, each holding its record unchanged |
| Agreement.ScanItemMap | macsnap2html_gui.py:874-889 | the map the page builds from a scan holds every record, unchanged, under its own id |
| Agreement.ChildLater | macsnap2html_gui.py:212-217 | a child of record k is a later record |
| Agreement.ScanNavReady | macsnap2html_gui.py:900-913 | drawing the tree from a scan always terminates (the page constructor's precondition holds) |
| Agreement.ScanOpensFirstRecord | macsnap2html_gui.py:866-869 | the page opens the first record of a non-empty scan, and nothing for an empty one |
| Agreement.KidStats | macsnap2html_gui.py:1003-1016 | a listing's statistics count each entry once, as a folder or as a file |
| Agreement.FolderStatsOfRecords | macsnap2html_gui.py:1003-1016 | records found in the map as embedded give the statistics of their own listing |
| Agreement.ScanFolderStats | macsnap2html_gui.py:1003-1016 | the statistics bar of the k-th scanned record, a directory, counts the subdirectories and files of the k-th visited entry's own listing and sums their sizes, a subfolder by its folder size |
| Agreement.ImagesFilterMatchesIcon | macsnap2html_gui.py:1053-1054 | "images" shows a file exactly when it matches the search and has the image icon |
| Agreement.VideoIconShownByVideos | macsnap2html_gui.py:1057-1058 | a file with the video icon is shown by "videos", search permitting |
| Agreement.AudioIconShownByAudio | macsnap2html_gui.py:1059-1060 | a file with the audio icon is shown by "audio", search permitting |
| Agreement.DocumentsHaveDocumentIcons | macsnap2html_gui.py:1055-1056 | what "documents" shows has the pdf, word, text, excel or powerpoint icon |
| Agreement.MpgVideoWithGenericIcon | macsnap2html_gui.py:1057-1058 | "clip.mpg" is shown by "videos" but drawn with the generic file icon |
| Progress.ScanCount | macsnap2html_gui.py:103-204 | a scan makes exactly `ListedCount` records: one per entry passing the listing filter, anywhere in the tree |
| Progress.PreCountWithHidden | macsnap2html_gui.py:92-97 | with hidden entries included, the progress total is exactly the number of records |
| Progress.PreCountAtLeast | macsnap2html_gui.py:92-97 | the progress total is never below the number of records |
| Progress.PreCountOvercounts | macsnap2html_gui.py:92-97 | without hidden entries, a root holding only an empty "~cache" directory has a progress total of 1 and no records |

## Findings

| source | as written | input that shows it | evidently intended | confidence | as-written member | corrected member |
|---|---|---|---|---|---|---|
| macsnap2html_gui.py:92-97 | the progress total prunes only '.' directories, so '~' and '$' directories and everything under them are counted although `process_directory` never lists them | include_hidden False, a root holding only an empty directory "~cache": total_items is 1 and no record is made, so progress stops at 0 of 1 | the total applies the listing's own filter to directories too, and then equals the number of records made | medium, not executed | Progress.PreCountOvercounts | Progress.ScanCount |

## Left out

- I/O:
  - The real filesystem, `os.listdir`/`os.stat`/`os.walk` failures (`OSError` paths), symlinks, `os.path.abspath` and modification times are not modelled. The filesystem is an in-memory tree, and a record's path is the joined path.
  - Writing the HTML file, `json.dumps`, the HTML/CSS template and the DOM are not modelled. Each part of the page the handlers redraw is a field holding what it shows.
- The tkinter interface:
  - the GUI, `main`, the scanning thread and `webbrowser`;
  - the progress callback, whose count is modelled in `Progress` but is never delivered anywhere;
  - generate_simple_icon.py and setup.py.
- Floating point:
  - `format_size` keeps the unit and the exact scaled value; the printed one-decimal text is not modelled.
  - The script's own `formatSize` for the statistics bar is not modelled; the bar's byte total is kept as a number.
- Text:
  - Lower-casing and case-insensitive sorting are ASCII only.
  - Python's `str.lower` and JavaScript's `toLowerCase` on other characters are not modelled.
- Details of the page that carry no state the handlers read:
  - the selected-row highlight and `scrollIntoView`;
  - the Expand/Collapse button text;
  - the search clear button's visibility and the focus call;
  - Copy Path, the keyboard shortcut, the toggle arrow icons and indentation classes, and `escapeHtml`.
- Explorer.Page.OpenFolder: the nav-tree row click and the file-list click on a folder are merged into one method. The file list only ever draws keys of the map, and gives a row the `folder` class exactly for a folder, so both guards reduce to "a folder in the map".
- Explorer.Page.constructor: `window.itemMap` is built once, when the page loads, and kept as a constant.
- Explorer.Page.constructor: it requires `Browse.NavReady`, meaning every child id in the map has a larger counter than its parent. On cyclic data the script's `renderNavItem` would recurse without end. `Agreement.ScanNavReady` proves that every scan meets this requirement.
- Explorer.Page.ShowFolder: `updateFolderStats` is modelled by the numbers it shows, not by the markup.
- Sizes.FormatSize: `decimal_places` is fixed at its default of 1, the value every record's `size_formatted` uses. The total-size summaries (macsnap2html_gui.py:771 and :1421) call `format_size(scanner.total_size, 2)`; they belong to the page header and the GUI and are not modelled.
