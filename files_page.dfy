/**
 * The file listing page (frontend/src/pages/files.tsx): the toggled selection, the
 * download button, and the strings it builds to navigate, to open a file's details and
 * to create a folder.
 */
module FilesPage {
  import opened Wrappers
  import opened Paths
  import Storage
  import PathStore

  /** A listed entry as the page keeps it in its selection. */
  datatype Entry = Entry(name: string, isDir: bool)

  const DetailsPrefix: string := "/files/details?file="
  const OkMessage: string := "OK"

  /** `selection.map((f) => f.name)`. */
  function Names(selection: seq<Entry>): (names: seq<string>)
    ensures |names| == |selection|
    ensures forall i :: 0 <= i < |selection| ==> names[i] == selection[i].name
  {
    if |selection| == 0 then [] else [selection[0].name] + Names(selection[1..])
  }

  predicate HasName(selection: seq<Entry>, name: string)
  {
    exists i :: 0 <= i < |selection| && selection[i].name == name
  }

  /** No two selected entries share a name. */
  predicate NamesDistinct(selection: seq<Entry>)
  {
    forall i, j :: 0 <= i < j < |selection| ==> selection[i].name != selection[j].name
  }

  /** `findIndex((item) => item.name === name)`: the first position with that name, or -1. */
  function FindIndex(selection: seq<Entry>, name: string): (k: int)
    ensures -1 <= k < |selection|
    ensures k == -1 <==> !HasName(selection, name)
    ensures k >= 0 ==> selection[k].name == name && forall i :: 0 <= i < k ==> selection[i].name != name
  {
    if |selection| == 0 then -1
    else if selection[0].name == name then 0
    else
      var k := FindIndex(selection[1..], name);
      assert forall i :: 1 <= i < |selection| ==> selection[i] == selection[1..][i - 1];
      if k == -1 then -1 else k + 1
  }

  /**
   * The selection after `handleSelectedFile(file)`: a file whose name is not selected is
   * appended; otherwise the first entry with that name is cut out.
   */
  function Toggle(selection: seq<Entry>, file: Entry): (r: seq<Entry>)
    ensures !HasName(selection, file.name) ==> r == selection + [file]
    ensures HasName(selection, file.name) ==>
      var k := FindIndex(selection, file.name);
      0 <= k < |selection| && r == selection[..k] + selection[k + 1..]
  {
    if !HasName(selection, file.name) then selection + [file]
    else
      var k := FindIndex(selection, file.name);
      selection[..k] + selection[k + 1..]
  }

  /** Toggling a file that is not selected, then toggling it again, restores the selection. */
  lemma ToggleTwiceRestores(selection: seq<Entry>, file: Entry)
    requires !HasName(selection, file.name)
    ensures Toggle(Toggle(selection, file), file) == selection
  {
    var once := selection + [file];
    assert once[|selection|].name == file.name;
    var k := FindIndex(once, file.name);
    assert k == |selection|;
    assert once[..k] == selection;
  }

  /** Toggling keeps selected names pairwise distinct, and a selected name is then gone entirely. */
  lemma ToggleKeepsNamesDistinct(selection: seq<Entry>, file: Entry)
    requires NamesDistinct(selection)
    ensures NamesDistinct(Toggle(selection, file))
    ensures HasName(selection, file.name) ==> !HasName(Toggle(selection, file), file.name)
  {
    var r := Toggle(selection, file);
    if HasName(selection, file.name) {
      var k := FindIndex(selection, file.name);
      assert r == selection[..k] + selection[k + 1..];
      forall i, j | 0 <= i < j < |r|
        ensures r[i].name != r[j].name
      {
        var i', j' := if i < k then i else i + 1, if j < k then j else j + 1;
        assert r[i] == selection[i'] && r[j] == selection[j'] && i' < j';
      }
      forall i | 0 <= i < |r|
        ensures r[i].name != file.name
      {
        var i' := if i < k then i else i + 1;
        assert r[i] == selection[i'] && i' != k;
      }
    } else {
      assert r == selection + [file];
    }
  }

  /** The download-button effect: true exactly for a single selected entry that is not a directory. */
  function DownloadEnabled(selection: seq<Entry>): (enabled: bool)
    ensures enabled <==> |selection| == 1 && !selection[0].isDir
  {
    |selection| > 0 && |selection| < 2 && !selection[0].isDir
  }

  /** Selecting one file on an empty selection enables download; selecting a second disables it. */
  lemma DownloadFollowsToggle(file: Entry, other: Entry)
    requires !file.isDir && other.name != file.name
    ensures DownloadEnabled(Toggle([], file))
    ensures !DownloadEnabled(Toggle(Toggle([], file), other))
    ensures !DownloadEnabled(Toggle(Toggle([], file), file))
  {
    ToggleTwiceRestores([], file);
    assert !HasName([file], other.name);
  }

  /** The directory a double-click opens: the child of `path`, or `"/" + name` from a breadcrumb. */
  function DirectoryTarget(path: string, name: string, fromBreadcrumb: bool): (target: string)
    ensures |target| > |name| && target[|target| - |name| - 1] == Slash && target[|target| - |name|..] == name
    ensures !fromBreadcrumb ==> |target| == |path| + 1 + |name| && target[..|path|] == path
    ensures fromBreadcrumb ==> |target| == 1 + |name| && target[0] == Slash
  {
    (if fromBreadcrumb then "" else path) + [Slash] + name
  }

  /** Opening a directory from the listing adds one segment to the current path. */
  lemma OpenChildDirectory(path: string, name: string)
    requires name != "" && Slash !in name
    ensures SplitPaths(DirectoryTarget(path, name, false)) == SplitPaths(path) + [name]
  {
    AppendSegment(path, name);
  }

  /** Opening a directory from a breadcrumb drops every ancestor: the new path has one segment. */
  lemma OpenBreadcrumbDirectory(path: string, name: string)
    requires name != "" && Slash !in name
    ensures SplitPaths(DirectoryTarget(path, name, true)) == [name]
  {
    AppendSegment("", name);
    EmptyAndRootHaveNoSegments();
  }

  /** The details route for a file: path and name are concatenated with no separator. */
  function DetailsUrl(path: string, name: string): (url: string)
    ensures |url| == |DetailsPrefix| + |path| + |name|
    ensures url[..|DetailsPrefix|] == DetailsPrefix
    ensures url[|DetailsPrefix|..|DetailsPrefix| + |path|] == path && url[|url| - |name|..] == name
  {
    DetailsPrefix + path + name
  }

  /**
   * Because nothing separates the path from the name, moving characters from the name to
   * the end of the path gives the same URL.
   */
  lemma DetailsUrlAmbiguous(path: string, name: string, k: nat)
    requires k <= |name|
    ensures DetailsUrl(path, name) == DetailsUrl(path + name[..k], name[k..])
  {
    assert name == name[..k] + name[k..];
  }

  /** `data?.cwd || "/qs/files"`. */
  function CwdOrDefault(cwd: Option<string>): (dir: string)
    ensures cwd.Some? && cwd.value != "" ==> dir == cwd.value
    ensures cwd.None? || cwd.value == "" ==> dir == PathStore.DefaultPath
  {
    Storage.OrElse(cwd, PathStore.DefaultPath)
  }

  /** The clickable breadcrumb items: none for the files root itself, else the segments of the directory. */
  function BreadcrumbItems(cwd: Option<string>): (items: seq<string>)
    ensures cwd == Some(PathStore.DefaultPath) ==> items == []
    ensures cwd != Some(PathStore.DefaultPath) ==> items == SplitPaths(CwdOrDefault(cwd))
    ensures forall i :: 0 <= i < |items| ==> items[i] != "" && Slash !in items[i]
  {
    if cwd == Some(PathStore.DefaultPath) then [] else SplitPaths(CwdOrDefault(cwd))
  }

  /**
   * What clicking breadcrumb `item` does, given the rendered `items` (the click handler
   * splits the same directory string again, so its list is `items`): nothing when the
   * item equals the last segment, otherwise open `"/" + item` as a directory.
   */
  function BreadcrumbTarget(items: seq<string>, item: string): (target: Option<string>)
    requires item in items
    ensures target.None? <==> item == items[|items| - 1]
    ensures target.Some? ==> target.value == [Slash] + item
  {
    if items[|items| - 1] == item then None
    else Some(DirectoryTarget("", item, true))
  }

  /**
   * The last breadcrumb is inert, and so is any ancestor that has the same name; every
   * other item opens a one-segment path made of its own name.
   */
  lemma BreadcrumbClick(cwd: Option<string>, item: string)
    requires item in BreadcrumbItems(cwd)
    ensures var items := BreadcrumbItems(cwd);
      BreadcrumbTarget(items, item).None? <==> item == items[|items| - 1]
    ensures var items := BreadcrumbItems(cwd);
      BreadcrumbTarget(items, item).Some? ==> SplitPaths(BreadcrumbTarget(items, item).value) == [item]
  {
    var items := BreadcrumbItems(cwd);
    var i :| 0 <= i < |items| && items[i] == item;
    OpenBreadcrumbDirectory("", item);
  }

  /** The path a new folder is requested at: `${data?.cwd}/${name}`, where a missing directory prints as "undefined". */
  function NewFolderPath(cwd: Option<string>, name: string): (folder: string)
    ensures |folder| > |name| && folder[|folder| - |name| - 1] == Slash && folder[|folder| - |name|..] == name
    ensures cwd.Some? ==> |folder| == |cwd.value| + 1 + |name| && folder[..|cwd.value|] == cwd.value
    ensures cwd.None? ==> |folder| == 10 + |name| && folder[..9] == "undefined"
  {
    (if cwd.Some? then cwd.value else "undefined") + [Slash] + name
  }

  /** A new folder is requested as one more segment below the listed directory. */
  lemma NewFolderIsChild(cwd: string, name: string)
    requires name != "" && Slash !in name
    ensures SplitPaths(NewFolderPath(Some(cwd), name)) == SplitPaths(cwd) + [name]
  {
    AppendSegment(cwd, name);
  }

  /** After the create request, the dialog closes and the listing reloads on an "OK" reply or a successful mutation. */
  function RefetchAfterCreate(msg: string, isSuccess: bool): (refetch: bool)
    ensures !isSuccess ==> (refetch <==> msg == OkMessage)
    ensures isSuccess ==> refetch
  {
    msg == OkMessage || isSuccess
  }

  /** The page's own state, sharing the `usePath` store. */
  class Page {
    const store: PathStore.Store
    var selectedFiles: seq<Entry>
    var showDownloadButton: bool

    /** The download effect has run on the current selection, and no name is selected twice. */
    predicate Valid()
      reads this
    {
      showDownloadButton == DownloadEnabled(selectedFiles) && NamesDistinct(selectedFiles)
    }

    constructor (store: PathStore.Store)
      ensures Valid()
      ensures this.store == store && selectedFiles == [] && !showDownloadButton
    {
      this.store := store;
      selectedFiles := [];
      showDownloadButton := false;
    }

    /** The `useEffect` on `selectedFiles`. */
    method SyncDownloadButton()
      modifies this
      ensures showDownloadButton == DownloadEnabled(selectedFiles)
      ensures selectedFiles == old(selectedFiles)
    {
      if |selectedFiles| > 0 && |selectedFiles| < 2 && !selectedFiles[0].isDir {
        showDownloadButton := true;
      } else {
        showDownloadButton := false;
      }
    }

    /** `handleSelectedFile`, followed by the effect it triggers. */
    method HandleSelectedFile(file: Entry)
      requires Valid()
      modifies this
      ensures Valid()
      ensures selectedFiles == Toggle(old(selectedFiles), file)
    {
      var names := Names(selectedFiles);
      if file.name !in names {
        selectedFiles := selectedFiles + [file];
      } else {
        var index := FindIndex(selectedFiles, file.name);
        var newArray := selectedFiles;
        if index != -1 {
          newArray := newArray[..index] + newArray[index + 1..];
          selectedFiles := newArray;
        }
      }
      ToggleKeepsNamesDistinct(old(selectedFiles), file);
      SyncDownloadButton();
    }

    /**
     * `handleDoubleClick`: a directory replaces the store's path; a file yields the
     * details route to navigate to.
     */
    method HandleDoubleClick(name: string, isDir: bool, fromBreadcrumb: bool) returns (navigateTo: Option<string>)
      modifies store
      ensures isDir ==> store.path == DirectoryTarget(old(store.path), name, fromBreadcrumb) && navigateTo.None?
      ensures !isDir ==> store.path == old(store.path) && navigateTo == Some(DetailsUrl(old(store.path), name))
    {
      if isDir {
        store.SetPath(DirectoryTarget(store.path, name, fromBreadcrumb));
        navigateTo := None;
      } else {
        navigateTo := Some(DetailsUrl(store.path, name));
      }
    }

    /** A click on breadcrumb `item` while the server reports `cwd` as the listed directory. */
    method OnBreadcrumbClick(cwd: Option<string>, item: string)
      requires item in BreadcrumbItems(cwd)
      modifies store
      ensures BreadcrumbTarget(BreadcrumbItems(cwd), item).None? ==> store.path == old(store.path)
      ensures BreadcrumbTarget(BreadcrumbItems(cwd), item).Some? ==> store.path == BreadcrumbTarget(BreadcrumbItems(cwd), item).value
    {
      var target := BreadcrumbTarget(BreadcrumbItems(cwd), item);
      if target.Some? {
        var _ := HandleDoubleClick(item, true, true);
      }
    }
  }
}
