/**
 * The remote actions `upload_folder` takes, planned from an abstract
 * directory walk. The walk is the sequence `os.walk` yields, each root given
 * by its path relative to the configured local folder ("." for the top).
 * The plan does not depend on any request's outcome. Whether the run gets
 * through it is decided when it is executed, where an exception, including
 * a failed upload's unreadable error body, ends the run.
 */
module UploadPlan {
  import opened Paths

  /** One `(root, dirs, files)` triple of the walk, with `root` already made relative. */
  datatype WalkEntry = WalkEntry(relRoot: string, dirs: seq<string>, files: seq<string>)

  /** A remote step: ask the token manager, create a folder, or upload a file. */
  datatype Action = GetToken | CreateFolder(folder: string) | Upload(path: string)

  /** What `os.path.relpath` yields for the top of the walk. */
  const Top: string := "."

  /**
   * The remote folder of a walk root: the walk is re-rooted under the local
   * folder's basename, so every relative root lands under `base`.
   */
  function RemoteRoot(base: string, relRoot: string): (r: string)
    ensures relRoot == Top ==> r == base
    ensures !Absolute(relRoot) ==> |base| <= |r| && r[..|base|] == base
  {
    JoinShape(base, relRoot);
    if relRoot == Top then base else Join(base, relRoot)
  }

  /**
   * A non-top root lands at `base/relRoot`, or at the bare `relRoot` when the
   * basename is empty (a local folder path ending in '/').
   */
  lemma RemoteRootNested(base: string, relRoot: string)
    requires NoSep(base)
    requires relRoot != Top && !Absolute(relRoot)
    ensures RemoteRoot(base, relRoot) == if base == [] then relRoot else base + [Sep] + relRoot
  {
    if base == [] {
      JoinCases(base, relRoot);
      assert base + relRoot == relRoot;
    } else {
      JoinOntoComponent(base, relRoot);
    }
  }

  /** A subdirectory's remote folder: `os.path.join(rel_path, dir_name)`. */
  function FolderPath(root: string, dir: string): (path: string) {
    Join(root, dir)
  }

  /** A file's remote item path: `f"{rel_path}/{file_name}"`, always with a '/'. */
  function FilePath(root: string, file: string): (path: string) {
    root + [Sep] + file
  }

  lemma PrependCreateFolder(a: Action, rest: seq<Action>)
    requires a.CreateFolder?
    requires forall i :: 0 <= i < |rest| ==> rest[i].CreateFolder?
    ensures forall i :: 0 <= i < |[a] + rest| ==> ([a] + rest)[i].CreateFolder?
  {
    assert forall i :: 1 <= i < |[a] + rest| ==> ([a] + rest)[i] == rest[i - 1];
  }

  /** For each subdirectory, one folder creation. */
  function FolderActions(root: string, dirs: seq<string>): (acts: seq<Action>)
    ensures |acts| == |dirs|
    ensures forall i :: 0 <= i < |acts| ==> acts[i].CreateFolder?
    decreases |dirs|
  {
    if dirs == [] then []
    else
      var rest := FolderActions(root, dirs[1..]);
      var first := CreateFolder(FolderPath(root, dirs[0]));
      PrependCreateFolder(first, rest);
      [first] + rest
  }

  /** For each file, a fresh token and then the upload. */
  function FileActions(root: string, files: seq<string>): (acts: seq<Action>)
    ensures |acts| == 2 * |files|
    ensures files != [] ==> acts[0] == GetToken
    decreases |files|
  {
    if files == [] then []
    else [GetToken, Upload(FilePath(root, files[0]))] + FileActions(root, files[1..])
  }

  /** One walk root: a token, the subdirectories' folders, then the files. */
  function EntryActions(base: string, e: WalkEntry): (acts: seq<Action>)
    ensures |acts| == 1 + |e.dirs| + 2 * |e.files| && acts[0] == GetToken
  {
    var root := RemoteRoot(base, e.relRoot);
    [GetToken] + FolderActions(root, e.dirs) + FileActions(root, e.files)
  }

  /** The `i`-th folder action creates the `i`-th subdirectory's folder. */
  lemma {:induction false} FolderActionsAt(root: string, dirs: seq<string>)
    ensures forall i :: 0 <= i < |dirs| ==> FolderActions(root, dirs)[i] == CreateFolder(FolderPath(root, dirs[i]))
    decreases |dirs|
  {
    if dirs != [] {
      FolderActionsAt(root, dirs[1..]);
      forall i | 1 <= i < |dirs|
        ensures FolderActions(root, dirs)[i] == CreateFolder(FolderPath(root, dirs[i]))
      {
        assert dirs[1..][i - 1] == dirs[i];
      }
    }
  }

  /** The `j`-th file costs the token request at `2 * j` and the upload at `2 * j + 1`. */
  lemma {:induction false} FileActionsAt(root: string, files: seq<string>)
    ensures forall j :: 0 <= j < |files| ==>
      FileActions(root, files)[2 * j] == GetToken &&
      FileActions(root, files)[2 * j + 1] == Upload(FilePath(root, files[j]))
    decreases |files|
  {
    if files != [] {
      FileActionsAt(root, files[1..]);
      var head: seq<Action> := [GetToken, Upload(FilePath(root, files[0]))];
      var acts := FileActions(root, files);
      assert acts == head + FileActions(root, files[1..]);
      forall j | 1 <= j < |files|
        ensures acts[2 * j] == GetToken && acts[2 * j + 1] == Upload(FilePath(root, files[j]))
      {
        assert files[1..][j - 1] == files[j];
        assert acts[2 * j] == FileActions(root, files[1..])[2 * (j - 1)];
        assert acts[2 * j + 1] == FileActions(root, files[1..])[2 * (j - 1) + 1];
      }
    }
  }

  /**
   * The layout of one walk root's actions: its token request first, then one
   * folder creation per subdirectory in order, then for each file in order a
   * token request immediately followed by its upload. So every folder of a
   * root is created under the root's own token, before any of its files.
   */
  lemma EntryActionsLayout(base: string, e: WalkEntry)
    ensures var acts := EntryActions(base, e);
            var root := RemoteRoot(base, e.relRoot);
            |acts| == 1 + |e.dirs| + 2 * |e.files| && acts[0] == GetToken &&
            (forall i :: 0 <= i < |e.dirs| ==> acts[1 + i] == CreateFolder(FolderPath(root, e.dirs[i]))) &&
            (forall j :: 0 <= j < |e.files| ==>
               acts[1 + |e.dirs| + 2 * j] == GetToken &&
               acts[2 + |e.dirs| + 2 * j] == Upload(FilePath(root, e.files[j])))
  {
    var root := RemoteRoot(base, e.relRoot);
    var folders := FolderActions(root, e.dirs);
    var files := FileActions(root, e.files);
    var acts := EntryActions(base, e);
    assert acts == [GetToken] + folders + files;
    FolderActionsAt(root, e.dirs);
    FileActionsAt(root, e.files);
    forall i | 0 <= i < |e.dirs|
      ensures acts[1 + i] == CreateFolder(FolderPath(root, e.dirs[i]))
    {
      assert acts[1 + i] == folders[i];
    }
    forall j | 0 <= j < |e.files|
      ensures acts[1 + |e.dirs| + 2 * j] == GetToken && acts[2 + |e.dirs| + 2 * j] == Upload(FilePath(root, e.files[j]))
    {
      assert acts[1 + |e.dirs| + 2 * j] == files[2 * j];
      assert acts[2 + |e.dirs| + 2 * j] == files[2 * j + 1];
    }
  }

  /** How many actions a walk calls for: per root one token request, one per subdirectory, two per file. */
  function PlanSize(walk: seq<WalkEntry>): (n: nat)
    decreases |walk|
  {
    if walk == [] then 0 else 1 + |walk[0].dirs| + 2 * |walk[0].files| + PlanSize(walk[1..])
  }

  /** The whole walk, root after root. */
  function Plan(base: string, walk: seq<WalkEntry>): (acts: seq<Action>)
    ensures |acts| == PlanSize(walk)
    ensures walk != [] ==> |acts| > 0 && acts[0] == GetToken
    decreases |walk|
  {
    if walk == [] then [] else EntryActions(base, walk[0]) + Plan(base, walk[1..])
  }

  lemma {:induction false} PlanAppend(base: string, a: seq<WalkEntry>, b: seq<WalkEntry>)
    ensures Plan(base, a + b) == Plan(base, a) + Plan(base, b)
    decreases |a|
  {
    if a == [] {
      assert a + b == b;
    } else {
      assert (a + b)[0] == a[0] && (a + b)[1..] == a[1..] + b;
      PlanAppend(base, a[1..], b);
    }
  }

  /**
   * The plan is the walk roots' actions back to back: the actions of root `w`
   * are exactly the slice between the sizes of the first `w` and the first
   * `w + 1` roots. With `EntryActionsLayout` this fixes every action of the
   * plan by its position.
   */
  lemma PlanSlice(base: string, walk: seq<WalkEntry>, w: nat)
    requires w < |walk|
    ensures PlanSize(walk[..w]) <= PlanSize(walk[..w + 1]) <= |Plan(base, walk)|
    ensures Plan(base, walk)[PlanSize(walk[..w])..PlanSize(walk[..w + 1])] == EntryActions(base, walk[w])
  {
    var before := walk[..w];
    var upTo := walk[..w + 1];
    assert upTo == before + [walk[w]];
    assert walk == upTo + walk[w + 1..];
    PlanAppend(base, before, [walk[w]]);
    PlanAppend(base, upTo, walk[w + 1..]);
    assert [walk[w]][1..] == [];
    assert Plan(base, [walk[w]]) == EntryActions(base, walk[w]);
  }

  // ---- Projections of an action trace, used to state what a plan does ----

  function Uploads(acts: seq<Action>): (paths: seq<string>)
    decreases |acts|
  {
    if acts == [] then []
    else (if acts[0].Upload? then [acts[0].path] else []) + Uploads(acts[1..])
  }

  function Folders(acts: seq<Action>): (folders: seq<string>)
    decreases |acts|
  {
    if acts == [] then []
    else (if acts[0].CreateFolder? then [acts[0].folder] else []) + Folders(acts[1..])
  }

  function TokenRequests(acts: seq<Action>): (n: nat)
    decreases |acts|
  {
    if acts == [] then 0
    else (if acts[0] == GetToken then 1 else 0) + TokenRequests(acts[1..])
  }

  lemma {:induction false} UploadsAppend(a: seq<Action>, b: seq<Action>)
    ensures Uploads(a + b) == Uploads(a) + Uploads(b)
    decreases |a|
  {
    if a != [] {
      assert a + b == [a[0]] + (a[1..] + b);
      UploadsAppend(a[1..], b);
    } else {
      assert a + b == b;
    }
  }

  lemma {:induction false} FoldersAppend(a: seq<Action>, b: seq<Action>)
    ensures Folders(a + b) == Folders(a) + Folders(b)
    decreases |a|
  {
    if a != [] {
      assert a + b == [a[0]] + (a[1..] + b);
      FoldersAppend(a[1..], b);
    } else {
      assert a + b == b;
    }
  }

  lemma {:induction false} TokenRequestsAppend(a: seq<Action>, b: seq<Action>)
    ensures TokenRequests(a + b) == TokenRequests(a) + TokenRequests(b)
    decreases |a|
  {
    if a != [] {
      assert a + b == [a[0]] + (a[1..] + b);
      TokenRequestsAppend(a[1..], b);
    } else {
      assert a + b == b;
    }
  }

  lemma ProjectionsAppend(a: seq<Action>, b: seq<Action>)
    ensures Uploads(a + b) == Uploads(a) + Uploads(b)
    ensures Folders(a + b) == Folders(a) + Folders(b)
    ensures TokenRequests(a + b) == TokenRequests(a) + TokenRequests(b)
  {
    UploadsAppend(a, b);
    FoldersAppend(a, b);
    TokenRequestsAppend(a, b);
  }

  // ---- Reference description of the walk, independent of the trace ----

  /** The remote item paths of a root's files, in walk order. */
  function EntryFileTargets(base: string, e: WalkEntry): (targets: seq<string>) {
    var root := RemoteRoot(base, e.relRoot);
    seq(|e.files|, j requires 0 <= j < |e.files| => FilePath(root, e.files[j]))
  }

  /** The remote folders of a root's subdirectories, in walk order. */
  function EntryFolderTargets(base: string, e: WalkEntry): (targets: seq<string>) {
    var root := RemoteRoot(base, e.relRoot);
    seq(|e.dirs|, i requires 0 <= i < |e.dirs| => FolderPath(root, e.dirs[i]))
  }

  function FileTargets(base: string, walk: seq<WalkEntry>): (targets: seq<string>)
    decreases |walk|
  {
    if walk == [] then [] else EntryFileTargets(base, walk[0]) + FileTargets(base, walk[1..])
  }

  function FolderTargets(base: string, walk: seq<WalkEntry>): (targets: seq<string>)
    decreases |walk|
  {
    if walk == [] then [] else EntryFolderTargets(base, walk[0]) + FolderTargets(base, walk[1..])
  }

  function FileCount(walk: seq<WalkEntry>): (n: nat)
    decreases |walk|
  {
    if walk == [] then 0 else |walk[0].files| + FileCount(walk[1..])
  }

  lemma {:induction false} FileActionsProjections(root: string, files: seq<string>)
    ensures Uploads(FileActions(root, files)) ==
            seq(|files|, j requires 0 <= j < |files| => FilePath(root, files[j]))
    ensures Folders(FileActions(root, files)) == []
    ensures TokenRequests(FileActions(root, files)) == |files|
    decreases |files|
  {
    if files != [] {
      var head: seq<Action> := [GetToken, Upload(FilePath(root, files[0]))];
      FileActionsProjections(root, files[1..]);
      ProjectionsAppend(head, FileActions(root, files[1..]));
      assert head == [GetToken] + [Upload(FilePath(root, files[0]))];
      ProjectionsAppend([GetToken], [Upload(FilePath(root, files[0]))]);
      var tail := seq(|files[1..]|, j requires 0 <= j < |files[1..]| => FilePath(root, files[1..][j]));
      var whole := seq(|files|, j requires 0 <= j < |files| => FilePath(root, files[j]));
      assert whole == [FilePath(root, files[0])] + tail by {
        forall j | 0 <= j < |whole|
          ensures whole[j] == ([FilePath(root, files[0])] + tail)[j]
        {
          if j > 0 {
            assert files[1..][j - 1] == files[j];
          }
        }
      }
    }
  }

  /** The folder paths of a non-empty list of subdirectories: the first one's, then the rest's. */
  lemma FolderPathsCons(root: string, dirs: seq<string>)
    requires dirs != []
    ensures seq(|dirs|, i requires 0 <= i < |dirs| => FolderPath(root, dirs[i])) ==
            [FolderPath(root, dirs[0])] + seq(|dirs[1..]|, i requires 0 <= i < |dirs[1..]| => FolderPath(root, dirs[1..][i]))
  {
    var tail := seq(|dirs[1..]|, i requires 0 <= i < |dirs[1..]| => FolderPath(root, dirs[1..][i]));
    var whole := seq(|dirs|, i requires 0 <= i < |dirs| => FolderPath(root, dirs[i]));
    forall i | 0 <= i < |whole|
      ensures whole[i] == ([FolderPath(root, dirs[0])] + tail)[i]
    {
      if i > 0 {
        assert dirs[1..][i - 1] == dirs[i];
      }
    }
  }

  lemma {:induction false} FolderActionsProjections(root: string, dirs: seq<string>)
    ensures Uploads(FolderActions(root, dirs)) == []
    ensures Folders(FolderActions(root, dirs)) ==
            seq(|dirs|, i requires 0 <= i < |dirs| => FolderPath(root, dirs[i]))
    ensures TokenRequests(FolderActions(root, dirs)) == 0
    decreases |dirs|
  {
    if dirs != [] {
      FolderActionsProjections(root, dirs[1..]);
      var first: seq<Action> := [CreateFolder(FolderPath(root, dirs[0]))];
      assert FolderActions(root, dirs) == first + FolderActions(root, dirs[1..]);
      ProjectionsAppend(first, FolderActions(root, dirs[1..]));
      FolderPathsCons(root, dirs);
    }
  }

  lemma EntryProjections(base: string, e: WalkEntry)
    ensures Uploads(EntryActions(base, e)) == EntryFileTargets(base, e)
    ensures Folders(EntryActions(base, e)) == EntryFolderTargets(base, e)
    ensures TokenRequests(EntryActions(base, e)) == 1 + |e.files|
  {
    var root := RemoteRoot(base, e.relRoot);
    FolderActionsProjections(root, e.dirs);
    FileActionsProjections(root, e.files);
    ProjectionsAppend([GetToken], FolderActions(root, e.dirs));
    ProjectionsAppend([GetToken] + FolderActions(root, e.dirs), FileActions(root, e.files));
  }

  /**
   * The plan uploads exactly the walk's files, each once, in walk order, to
   * `remote root + "/" + file name`; it creates exactly the walk's
   * subdirectories, in order, at `join(remote root, dir name)`; and it asks
   * for a token once per walk root plus once per file.
   */
  lemma {:induction false} PlanCoversWalk(base: string, walk: seq<WalkEntry>)
    ensures Uploads(Plan(base, walk)) == FileTargets(base, walk)
    ensures Folders(Plan(base, walk)) == FolderTargets(base, walk)
    ensures TokenRequests(Plan(base, walk)) == |walk| + FileCount(walk)
    decreases |walk|
  {
    if walk != [] {
      PlanCoversWalk(base, walk[1..]);
      EntryProjections(base, walk[0]);
      ProjectionsAppend(EntryActions(base, walk[0]), Plan(base, walk[1..]));
    }
  }

  /** Every upload in `acts` comes immediately after a token request. */
  predicate TokenBeforeUpload(acts: seq<Action>) {
    forall i :: 0 <= i < |acts| && acts[i].Upload? ==> i > 0 && acts[i - 1] == GetToken
  }

  lemma TokenBeforeUploadAppend(a: seq<Action>, b: seq<Action>)
    requires TokenBeforeUpload(a) && TokenBeforeUpload(b)
    requires b == [] || !b[0].Upload?
    ensures TokenBeforeUpload(a + b)
  {
    forall i | 0 <= i < |a + b| && (a + b)[i].Upload?
      ensures i > 0 && (a + b)[i - 1] == GetToken
    {
      if i >= |a| {
        assert (a + b)[i] == b[i - |a|];
        assert (a + b)[i - 1] == b[i - |a| - 1];
      }
    }
  }

  lemma {:induction false} FileActionsTokenBeforeUpload(root: string, files: seq<string>)
    ensures TokenBeforeUpload(FileActions(root, files))
    decreases |files|
  {
    if files != [] {
      FileActionsTokenBeforeUpload(root, files[1..]);
      TokenBeforeUploadAppend([GetToken, Upload(FilePath(root, files[0]))], FileActions(root, files[1..]));
    }
  }

  /**
   * Per-file token acquisition: every upload in the plan comes immediately
   * after a request for a valid token.
   */
  lemma {:induction false} UploadFollowsToken(base: string, walk: seq<WalkEntry>)
    ensures TokenBeforeUpload(Plan(base, walk))
    decreases |walk|
  {
    if walk != [] {
      var e := walk[0];
      var root := RemoteRoot(base, e.relRoot);
      FileActionsTokenBeforeUpload(root, e.files);
      TokenBeforeUploadAppend([GetToken], FolderActions(root, e.dirs));
      TokenBeforeUploadAppend([GetToken] + FolderActions(root, e.dirs), FileActions(root, e.files));
      UploadFollowsToken(base, walk[1..]);
      TokenBeforeUploadAppend(EntryActions(base, e), Plan(base, walk[1..]));
    }
  }

  /**
   * A small walk of the local folder `/home/me/root`: a file at the top and
   * one in subdirectory `sub`. The top root maps to `root`, the
   * subdirectory's folder and file land under `root/sub`.
   */
  lemma ExampleWalk()
    ensures Plan(Basename("/home/me/root"),
                 [WalkEntry(".", ["sub"], ["a.txt"]), WalkEntry("sub", [], ["b.bin"])]) ==
            [GetToken, CreateFolder("root/sub"), GetToken, Upload("root/a.txt"),
             GetToken, GetToken, Upload("root/sub/b.bin")]
  {
    assert Basename("/home/me/root") == "root" by {
      BasenameAfterSep("/home/me", "root");
      assert "/home/me" + [Sep] + "root" == "/home/me/root";
    }
    ExamplePlanFromBase();
  }

  /** The actions for one subdirectory and for one file. */
  lemma SingleActions(root: string, dir: string, file: string)
    ensures FolderActions(root, [dir]) == [CreateFolder(FolderPath(root, dir))]
    ensures FileActions(root, [file]) == [GetToken, Upload(FilePath(root, file))]
  {
    assert [dir][1..] == [];
    assert [file][1..] == [];
  }

  lemma PlanCons(base: string, e: WalkEntry, walk: seq<WalkEntry>)
    ensures Plan(base, [e] + walk) == EntryActions(base, e) + Plan(base, walk)
  {
    assert ([e] + walk)[1..] == walk;
  }

  lemma ExamplePlanFromBase()
    ensures Plan("root", [WalkEntry(".", ["sub"], ["a.txt"]), WalkEntry("sub", [], ["b.bin"])]) ==
            [GetToken, CreateFolder("root/sub"), GetToken, Upload("root/a.txt"),
             GetToken, GetToken, Upload("root/sub/b.bin")]
  {
    var e1 := WalkEntry(".", ["sub"], ["a.txt"]);
    var e2 := WalkEntry("sub", [], ["b.bin"]);
    assert RemoteRoot("root", ".") == "root";
    assert RemoteRoot("root", "sub") == "root/sub";
    SingleActions("root", "sub", "a.txt");
    SingleActions("root/sub", "sub", "b.bin");
    assert FolderPath("root", "sub") == "root/sub";
    assert FilePath("root", "a.txt") == "root/a.txt";
    assert FilePath("root/sub", "b.bin") == "root/sub/b.bin";
    assert FolderActions("root/sub", []) == [];
    PlanCons("root", e1, [e2]);
    PlanCons("root", e2, []);
    assert [e1] + [e2] == [e1, e2];
    assert [e2] + [] == [e2];
  }

  /**
   * A local folder given with a trailing '/' has an empty basename: its
   * subdirectories then map to bare names while its top-level files map to
   * item paths that start with '/'.
   */
  lemma TrailingSlashFolder()
    ensures Plan(Basename("photos/"), [WalkEntry(".", ["x"], ["a.jpg"])]) ==
            [GetToken, CreateFolder("x"), GetToken, Upload("/a.jpg")]
  {
    assert Basename("photos/") == "";
    ExamplePlanFromEmptyBase();
  }

  lemma ExamplePlanFromEmptyBase()
    ensures Plan("", [WalkEntry(".", ["x"], ["a.jpg"])]) ==
            [GetToken, CreateFolder("x"), GetToken, Upload("/a.jpg")]
  {
    var e := WalkEntry(".", ["x"], ["a.jpg"]);
    assert RemoteRoot("", ".") == "";
    SingleActions("", "x", "a.jpg");
    assert FolderPath("", "x") == "x";
    assert FilePath("", "a.jpg") == "/a.jpg";
    PlanCons("", e, []);
    assert [e] + [] == [e];
  }
}
