/**
 The scope of a read on canvases of a directory tree (src/core/workspace/Workspace.js): a canvas holds no documents
 itself, so its path is replaced by that of its parent folder.
 */
module CanvasScope {
  import Text

  /** One slash for each run of them. */
  function OneSlashEach(s: string): (r: string)
    ensures |r| <= |s| && (s != "" ==> r != "")
  {
    if |s| < 2 then s
    else if s[0] == '/' && s[1] == '/' then OneSlashEach(s[1..])
    else [s[0]] + OneSlashEach(s[1..])
  }

  function Normalized(path: string): (r: string)
    ensures r == "/" || |r| <= |path|
  {
    var single := OneSlashEach(if path == "" then "/" else path);
    var n := if single[|single| - 1] == '/' then single[..|single| - 1] else single;
    if n == "" then "/" else n
  }

  function ParentPath(path: string): string {
    var n := Normalized(path);
    var at := Text.LastIndexOf(n, '/');
    if n == "/" || at <= 0 then "/" else n[..at]
  }

  function Depth(path: string): nat { if path == "/" then 0 else 1 + |path| }

  lemma ParentIsAbove(path: string)
    requires path != "/"
    ensures Depth(ParentPath(path)) < Depth(path)
  {
  }

  function WithParent(scope: seq<string>, path: string): seq<string> {
    seq(|scope|, i requires 0 <= i < |scope| => if scope[i] == path then ParentPath(path) else scope[i])
  }

  /** The scope after the canvases among some paths have been replaced, one path after the other. */
  function Rescoped(scope: seq<string>, paths: seq<string>, isCanvas: string -> bool): seq<string> {
    if paths == [] then scope
    else
      var before, path := Rescoped(scope, paths[..|paths| - 1], isCanvas), paths[|paths| - 1];
      if isCanvas(path) then WithParent(before, path) else before
  }

  /** The folders a read on some paths is meant to read: a canvas stands for its parent, a folder for itself. */
  function FolderOf(path: string, isCanvas: string -> bool): string {
    if isCanvas(path) then ParentPath(path) else path
  }

  function FoldersOf(paths: seq<string>, isCanvas: string -> bool): seq<string> {
    seq(|paths|, i requires 0 <= i < |paths| => FolderOf(paths[i], isCanvas))
  }

  function OneMove(path: string, step: string, isCanvas: string -> bool): string {
    if path == step && isCanvas(path) then ParentPath(path) else path
  }

  /** What becomes of one path of the scope. */
  function Moved(path: string, paths: seq<string>, isCanvas: string -> bool): string
    decreases |paths|
  {
    if paths == [] then path
    else
      Moved(OneMove(path, paths[0], isCanvas), paths[1..], isCanvas)
  }

  lemma {:induction false} MovedByOneMore(path: string, paths: seq<string>, last: string, isCanvas: string -> bool)
    ensures Moved(path, paths + [last], isCanvas) == OneMove(Moved(path, paths, isCanvas), last, isCanvas)
    decreases |paths|
  {
    if paths == [] {
      assert [] + [last] == [last];
    } else {
      assert (paths + [last])[1..] == paths[1..] + [last];
      MovedByOneMore(OneMove(path, paths[0], isCanvas), paths[1..], last, isCanvas);
    }
  }

  lemma {:induction false} RescopedAt(scope: seq<string>, paths: seq<string>, isCanvas: string -> bool)
    ensures |Rescoped(scope, paths, isCanvas)| == |scope|
    ensures forall k :: 0 <= k < |scope| ==> Rescoped(scope, paths, isCanvas)[k] == Moved(scope[k], paths, isCanvas)
  {
    if paths != [] {
      var init, last := paths[..|paths| - 1], paths[|paths| - 1];
      RescopedAt(scope, init, isCanvas);
      assert paths == init + [last];
      forall k | 0 <= k < |scope| ensures Rescoped(scope, paths, isCanvas)[k] == Moved(scope[k], paths, isCanvas) {
        MovedByOneMore(scope[k], init, last, isCanvas);
      }
    }
  }

  /** A path only ever moves up, and moves unless it is no canvas among the paths. */
  lemma {:induction false} MovedUp(path: string, paths: seq<string>, isCanvas: string -> bool)
    ensures Moved(path, paths, isCanvas) == path || Depth(Moved(path, paths, isCanvas)) < Depth(path)
    ensures Moved(path, paths, isCanvas) == path <==> path !in paths || !isCanvas(path) || path == "/"
    decreases |paths|
  {
    if paths != [] {
      var next := OneMove(path, paths[0], isCanvas);
      MovedUp(next, paths[1..], isCanvas);
      if path != "/" {
        ParentIsAbove(path);
      }
      assert path in paths <==> path == paths[0] || path in paths[1..];
    }
  }

  /** The path of a canvas is replaced when it comes up first, and what it is replaced by may be replaced later. */
  lemma {:induction false} MovedFrom(paths: seq<string>, i: nat, isCanvas: string -> bool)
    requires i < |paths| && paths[i] !in paths[..i]
    ensures Moved(paths[i], paths, isCanvas) == Moved(FolderOf(paths[i], isCanvas), paths[i + 1..], isCanvas)
  {
    if i > 0 {
      assert paths[0] in paths[..i];
      assert paths[1..][..i - 1] == paths[..i][1..];
      assert paths[1..][i..] == paths[i + 1..];
      MovedFrom(paths[1..], i - 1, isCanvas);
    }
  }

  /** A canvas is read, and later one that is its parent folder. */
  ghost predicate Chained(paths: seq<string>, isCanvas: string -> bool) {
    exists i, j :: 0 <= i < j < |paths| && Link(paths[i], paths[j], isCanvas)
  }

  predicate Link(path: string, above: string, isCanvas: string -> bool) {
    isCanvas(path) && isCanvas(above) && ParentPath(path) == above && above != "/"
  }

  lemma FirstAt(paths: seq<string>, path: string) returns (i: nat)
    requires path in paths
    ensures i < |paths| && paths[i] == path && path !in paths[..i]
    ensures forall k :: 0 <= k < |paths| && paths[k] == path ==> i <= k
  {
    i := 0;
    while paths[i] != path
      invariant i < |paths| && path !in paths[..i] && path in paths
      decreases |paths| - i
    {
      assert paths[..i + 1] == paths[..i] + [paths[i]];
      i := i + 1;
    }
  }

  /** The path of one canvas ends at its parent folder unless that comes up later as a canvas. */
  lemma MovedToFolder(paths: seq<string>, i: nat, isCanvas: string -> bool)
    requires i < |paths| && paths[i] !in paths[..i]
    ensures Moved(paths[i], paths, isCanvas) == FolderOf(paths[i], isCanvas)
       <==> !exists j :: i < j < |paths| && Link(paths[i], paths[j], isCanvas)
  {
    var folder, later := FolderOf(paths[i], isCanvas), paths[i + 1..];
    MovedFrom(paths, i, isCanvas);
    MovedUp(folder, later, isCanvas);
    if isCanvas(paths[i]) {
      assert folder in later <==> exists j :: i < j < |paths| && paths[j] == folder;
    } else {
      assert folder !in later || !isCanvas(folder);
    }
  }

  /**
   A read on canvases of a directory tree reads their parent folders, and other paths as they are, if and only if
   no canvas is listed before one that is its parent folder.
   */
  lemma ReadsParentFolders(paths: seq<string>, isCanvas: string -> bool)
    ensures Rescoped(paths, paths, isCanvas) == FoldersOf(paths, isCanvas) <==> !Chained(paths, isCanvas)
  {
    var rescoped, folders := Rescoped(paths, paths, isCanvas), FoldersOf(paths, isCanvas);
    RescopedAt(paths, paths, isCanvas);
    if Chained(paths, isCanvas) {
      var i, j :| 0 <= i < j < |paths| && Link(paths[i], paths[j], isCanvas);
      var first := FirstAt(paths, paths[i]);
      assert first <= i;
      MovedToFolder(paths, first, isCanvas);
      assert rescoped[first] != folders[first];
    } else {
      forall k | 0 <= k < |paths| ensures rescoped[k] == folders[k] {
        var first := FirstAt(paths, paths[k]);
        MovedToFolder(paths, first, isCanvas);
      }
    }
  }

  lemma ParentOfNested()
    ensures ParentPath("/a/b") == "/a" && ParentPath("/a") == "/"
  {
    Text.LastIndexIs("/a/b", '/', 2);
    Text.LastIndexIs("/a", '/', 0);
    assert Normalized("/a/b") == "/a/b" by {
      assert "/a/b"[1..] == "a/b" && "a/b"[1..] == "/b" && "/b"[1..] == "b";
    }
    assert "/a"[1..] == "a";
    assert "/a/b"[..2] == "/a";
  }

  /** A canvas in a canvas, both read: the inner one is read at the root instead of the folder it is in. */
  lemma NestedCanvasesReadTheRoot(isCanvas: string -> bool)
    requires isCanvas("/a/b") && isCanvas("/a")
    ensures FoldersOf(["/a/b", "/a"], isCanvas) == ["/a", "/"]
    ensures Rescoped(["/a/b", "/a"], ["/a/b", "/a"], isCanvas) == ["/", "/"]
  {
    ParentOfNested();
    var paths := ["/a/b", "/a"];
    RescopedAt(paths, paths, isCanvas);
    assert paths[1..] == ["/a"] && ["/a"][1..] == [];
    assert paths[0] == "/a/b" && paths[1] == "/a";
  }

  predicate NoDouble(s: string) { forall i :: 0 <= i < |s| - 1 ==> s[i] != '/' || s[i + 1] != '/' }

  /** A path in one form: starting with a slash, not ending with one, and none doubled. */
  predicate Clean(path: string) { |path| >= 2 && path[0] == '/' && path[|path| - 1] != '/' && NoDouble(path) }

  lemma {:induction false} OneSlashLeaves(s: string)
    requires NoDouble(s)
    ensures OneSlashEach(s) == s
  {
    if |s| >= 2 {
      OneSlashLeaves(s[1..]);
    }
  }

  lemma ChildHasNoDouble(folder: string, name: string)
    requires name != "" && '/' !in name && (folder == "" || Clean(folder))
    ensures NoDouble(folder + "/" + name)
  {
    var path := folder + "/" + name;
    forall i | 0 <= i < |path| - 1 ensures path[i] != '/' || path[i + 1] != '/' {
      if i < |folder| {
        assert path[i] == folder[i];
        assert i < |folder| - 1 ==> path[i + 1] == folder[i + 1];
      } else if i > |folder| {
        assert path[i] == name[i - |folder| - 1];
      } else {
        assert path[i + 1] == name[0];
      }
    }
  }

  lemma ChildParts(folder: string, name: string)
    requires name != "" && '/' !in name
    ensures var path := folder + "/" + name;
            && path[..|folder|] == folder && path[|folder|] == '/' && path[|folder| + 1..] == name && path[|path| - 1] != '/'
  {
    var path := folder + "/" + name;
    assert path[|path| - 1] == name[|name| - 1];
  }

  /** The parent of a path is what stands before its last name. */
  lemma ParentOfChild(folder: string, name: string)
    requires name != "" && '/' !in name && (folder == "" || Clean(folder))
    ensures ParentPath(folder + "/" + name) == if folder == "" then "/" else folder
  {
    var path := folder + "/" + name;
    ChildHasNoDouble(folder, name);
    OneSlashLeaves(path);
    ChildParts(folder, name);
    CleanParent(path, |folder|);
  }

  lemma CleanParent(path: string, at: nat)
    requires |path| >= 2 && OneSlashEach(path) == path && path[|path| - 1] != '/'
    requires at < |path| && path[at] == '/' && '/' !in path[at + 1..]
    ensures ParentPath(path) == if at == 0 then "/" else path[..at]
  {
    Text.LastIndexIs(path, '/', at);
  }
}
