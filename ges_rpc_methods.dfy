/** `PathSummaryProducer` of `ges_rpc_methods.py`: the JSON-RPC method
    `browser.path_summary`, which sanitises a path relative to the served
    base directory, finds a git repository along it, and describes what the
    path names: a plain folder, a repository, or a tree, blob or submodule
    inside one of its commits. The base directory is the `abspath` of the
    configured one, so every base path here is absolute. */
module GesRpcMethods {
  import opened Wrappers
  import opened PyText
  import opened Json
  import opened PosixPath
  import opened RepoStore
  import opened RepoEndpoints
  import opened Seqs

  // ---------------------------------------------------------------------
  // Sanitising a path

  /** The path `_sanitize_path` checks: the request path with its slashes,
      then its backslashes, stripped from both ends, joined to the base and
      normalised. */
  function FullPath(basePath: string, rel: string): (r: string)
    requires IsAbs(basePath)
    ensures IsAbs(r)
  {
    NormPath(PathJoin(basePath, Strip(Strip(rel, {'/'}), {'\\'})))
  }

  /** `_sanitize_path(relative_path)`: anything but a string, and a path
      whose normalised form does not begin with the base, raise
      PathUnfitError; otherwise the part after the base, stripped and with
      backslashes turned into slashes. */
  function SanitizePath(basePath: string, rel: Json): (r: Result<string>)
    requires IsAbs(basePath)
    ensures r.Err? ==> r.error == PathUnfitError
    ensures r.Ok? <==> rel.Str? && StartsWith(FullPath(basePath, rel.s), basePath)
    ensures r.Ok? ==> '\\' !in r.value
    ensures r.Ok? ==> |r.value| <= |FullPath(basePath, rel.s)| - |basePath|
  {
    if !rel.Str? then Err(PathUnfitError)
    else
      var full := FullPath(basePath, rel.s);
      if !StartsWith(full, basePath) then Err(PathUnfitError)
      else Ok(Relative(full[|basePath|..]))
  }

  /** What follows the base in a checked path, stripped of slashes and then
      backslashes at both ends, with backslashes turned into slashes. */
  function Relative(tail: string): (r: string)
    ensures '\\' !in r && |r| <= |tail|
  {
    ReplaceChar(Strip(Strip(tail, {'/'}), {'\\'}), '\\', '/')
  }

  /** The empty path, a lone slash and a lone backslash all name the base
      itself. */
  lemma SanitizeTrivialPaths(basePath: string)
    requires IsAbs(basePath) && NormPath(basePath) == basePath
    ensures SanitizePath(basePath, Str("")) == Ok("")
    ensures SanitizePath(basePath, Str("/")) == Ok("")
    ensures SanitizePath(basePath, Str("\\")) == Ok("")
  {
    JoinEmptyNormalises(basePath);
    assert LStrip("/", {'/'}) == LStrip("", {'/'});
    assert LStrip("\\", {'\\'}) == LStrip("", {'\\'});
    assert Strip("", {'/'}) == "" && Strip("", {'\\'}) == "";
    assert Strip("/", {'/'}) == "";
    assert Strip("\\", {'/'}) == "\\";
    assert Strip("\\", {'\\'}) == "";
    assert FullPath(basePath, "") == basePath;
    assert basePath[|basePath|..] == "";
  }

  /** Slashes are stripped before backslashes, so a path starting with a
      backslash and then a slash becomes absolute: the join drops the base
      and the path is taken from the root, still subject to the check that
      it begins with the base. */
  lemma BackslashSlashIsAbsolute(basePath: string, s: string)
    requires IsAbs(basePath)
    requires s != "" && s[|s| - 1] !in {'/', '\\'}
    ensures FullPath(basePath, "\\/" + s) == NormPath("/" + s)
  {
    var t := "\\/" + s;
    StripUnchanged(t, {'/'});
    assert t == ['\\'] + ("/" + s);
    StripLeading('\\', "/" + s, {'\\'});
  }

  // ---------------------------------------------------------------------
  // Listing a plain folder

  /** One element of `_list_dir`'s reply: a sub-directory, marked when it is
      a repository. */
  function FolderItem(name: string, isRepo: bool): (r: Json)
    ensures r.Obj? && "name" in r.fields && "type" in r.fields
    ensures r.fields["name"] == Str(name) && r.fields["type"] == Str("folder")
    ensures "is_repo" in r.fields <==> isRepo
  {
    if isRepo then Obj(map["name" := Str(name), "type" := Str("folder"), "is_repo" := Bool(true)])
    else Obj(map["name" := Str(name), "type" := Str("folder")])
  }

  /** What `_list_dir` answers for the listing `names` of directory `p`:
      the entries that are directories, in listing order. */
  function DirItems(fs: FileSystem, p: string, names: seq<string>): seq<Json>
    decreases |names|
  {
    if names == [] then []
    else
      var front := DirItems(fs, p, names[..|names| - 1]);
      var name := names[|names| - 1];
      var s := PathJoin(p, name);
      if IsDir(fs, s) then front + [FolderItem(name, IsRepoDir(fs, s))] else front
  }

  /** Every item of the listing stands for a listed name that is a
      directory, marked as a repository exactly when it is one. */
  lemma {:induction false} DirItemsSound(fs: FileSystem, p: string, names: seq<string>)
    ensures forall item :: item in DirItems(fs, p, names) ==>
      exists n :: n in names && IsDir(fs, PathJoin(p, n)) && item == FolderItem(n, IsRepoDir(fs, PathJoin(p, n)))
    decreases |names|
  {
    if names != [] {
      var front := names[..|names| - 1];
      DirItemsSound(fs, p, front);
      forall item | item in DirItems(fs, p, names)
        ensures exists n :: n in names && IsDir(fs, PathJoin(p, n)) && item == FolderItem(n, IsRepoDir(fs, PathJoin(p, n)))
      {
        if item in DirItems(fs, p, front) {
          var n :| n in front && IsDir(fs, PathJoin(p, n)) && item == FolderItem(n, IsRepoDir(fs, PathJoin(p, n)));
          assert n in names;
        } else {
          assert names[|names| - 1] in names;
        }
      }
    }
  }

  /** Every listed name that is a directory is in the listing. */
  lemma {:induction false} DirItemsComplete(fs: FileSystem, p: string, names: seq<string>)
    ensures forall n :: n in names && IsDir(fs, PathJoin(p, n)) ==>
      FolderItem(n, IsRepoDir(fs, PathJoin(p, n))) in DirItems(fs, p, names)
    decreases |names|
  {
    if names != [] {
      var front := names[..|names| - 1];
      DirItemsComplete(fs, p, front);
      forall n | n in names && IsDir(fs, PathJoin(p, n))
        ensures FolderItem(n, IsRepoDir(fs, PathJoin(p, n))) in DirItems(fs, p, names)
      {
        if n in front {
          assert FolderItem(n, IsRepoDir(fs, PathJoin(p, n))) in DirItems(fs, p, front);
        } else {
          assert names == front + [names[|names| - 1]];
        }
      }
    }
  }

  /** `_list_dir(relative_path)`: listing a path that is not a directory
      raises. */
  method ListDirSummary(fs: FileSystem, basePath: string, rel: string) returns (r: Result<seq<Json>>)
    ensures var p := PathJoin(basePath, rel);
      match ListDir(fs, p)
      case None => r == Err(GenericException("no such directory"))
      case Some(names) => r == Ok(DirItems(fs, p, names))
  {
    var p := PathJoin(basePath, rel);
    var listing := ListDir(fs, p);
    if listing.None? {
      return Err(GenericException("no such directory"));
    }
    var names := listing.value;
    var dirs := [];
    for i := 0 to |names|
      invariant dirs == DirItems(fs, p, names[..i])
    {
      PrefixSnoc(names, i);
      var name := names[i];
      var s := PathJoin(p, name);
      if IsDir(fs, s) {
        if IsRepoDir(fs, s) {
          dirs := dirs + [FolderItem(name, true)];
        } else {
          dirs := dirs + [FolderItem(name, false)];
        }
      }
    }
    assert names[..|names|] == names;
    return Ok(dirs);
  }

  // ---------------------------------------------------------------------
  // Objects inside a commit

  /** Blobs this large or larger are never shown inline, nor taken for
      text for want of an extension. */
  const SizeLimit: nat := 64000

  /** `os.path.splitext(name)[1].strip('.')`: the extension without its
      dot. */
  function Extension(name: string): string {
    Strip(Ext(name), {'.'})
  }

  /** The extension holds no dot: it is what follows the dot `splitext`
      found, or nothing. */
  lemma ExtensionWithoutDot(name: string)
    ensures '.' !in Extension(name)
    ensures Extension(name) == "" || Ext(name) == "." + Extension(name)
  {
    var e := Ext(name);
    if e != "" {
      var x := e[1..];
      assert e == "." + x;
      assert LStrip(x, {'.'}) == x;
      assert LStrip(e, {'.'}) == x;
      assert RStrip(x, {'.'}) == x;
    }
  }

  /** The mime type reported for a blob: plain text for a small blob
      without extension, otherwise what `guess` (standing for
      `mimetypes.guess_type`) says, or octet-stream when it says nothing. */
  function BlobMime(name: string, size: nat, guess: string -> Option<string>): (r: string)
    ensures r != ""
  {
    if Extension(name) == "" && size < SizeLimit then "text/plain"
    else
      var g := guess(name).GetOr("");
      if g != "" then g else "application/octet-stream"
  }

  /** `mime.split('/', 1)[0]`: the major type, the text before the first
      slash. */
  function SuperMimeType(mime: string): string {
    SplitOnce(mime, '/')[0]
  }

  /** The major type is the part of the mime type before its first slash,
      or all of it when it has none. */
  lemma SuperMimeTypePrefix(mime: string)
    ensures var r := SuperMimeType(mime);
      && '/' !in r && |r| <= |mime| && r == mime[..|r|]
      && (|r| < |mime| ==> mime[|r|] == '/')
  {
    var parts := SplitOnce(mime, '/');
    if |parts| == 2 {
      assert mime[..|parts[0]|] == parts[0];
    }
  }

  /** The summary of a blob: its type, name and size, and its text when
      it is small and of a text type. */
  function BlobSummary(name: string, data: string, guess: string -> Option<string>): Json {
    var mime := BlobMime(name, |data|, guess);
    BlobFields(name, data, mime, BlobType(name, mime))
  }

  /** The members of a blob summary, given its mime type and its `type`
      member. */
  function BlobFields(name: string, data: string, mime: string, kind: Json): Json {
    var fields := map["type" := kind, "name" := Str(name), "size" := Num(|data|)];
    if |data| < SizeLimit && StartsWith(mime, "text") then Obj(fields["data" := Str(data)])
    else Obj(fields)
  }

  /** A blob summary names the blob and gives its size and type; it holds
      the blob's text exactly when the blob is under the size limit and
      its mime type starts with `text`. */
  lemma BlobSummaryFields(name: string, data: string, guess: string -> Option<string>)
    ensures var r := BlobSummary(name, data, guess); var mime := BlobMime(name, |data|, guess);
      && r.Obj? && "name" in r.fields && "size" in r.fields && "type" in r.fields
      && r.fields.Keys == {"type", "name", "size"} + (if |data| < SizeLimit && StartsWith(mime, "text") then {"data"} else {})
      && r.fields["type"] == BlobType(name, mime)
      && r.fields["name"] == Str(name) && r.fields["size"] == Num(|data|)
      && ("data" in r.fields <==> |data| < SizeLimit && StartsWith(BlobMime(name, |data|, guess), "text"))
      && ("data" in r.fields ==> r.fields["data"] == Str(data))
  {
    var mime := BlobMime(name, |data|, guess);
    BlobFieldsShape(name, data, mime, BlobType(name, mime));
  }

  lemma BlobFieldsShape(name: string, data: string, mime: string, kind: Json)
    ensures var r := BlobFields(name, data, mime, kind);
      && r.Obj? && "name" in r.fields && "size" in r.fields && "type" in r.fields
      && r.fields.Keys == {"type", "name", "size"} + (if |data| < SizeLimit && StartsWith(mime, "text") then {"data"} else {})
      && r.fields["type"] == kind
      && r.fields["name"] == Str(name) && r.fields["size"] == Num(|data|)
      && ("data" in r.fields <==> |data| < SizeLimit && StartsWith(mime, "text"))
      && ("data" in r.fields ==> r.fields["data"] == Str(data))
  {
    BlobKeysDistinct();
  }

  /** The member names of a blob summary differ from one another. */
  lemma BlobKeysDistinct()
    ensures "data" != "type" && "data" != "name" && "data" != "size"
    ensures "type" != "name" && "type" != "size" && "name" != "size"
  {
    assert "data"[0] == 'd' && "type"[0] == 't' && "name"[0] == 'n' && "size"[0] == 's';
  }

  /** The `type` member of a blob summary. */
  function BlobType(name: string, mime: string): Json {
    Obj(map[
      "mimetype" := Str(mime),
      "supermimetype" := Str(SuperMimeType(mime)),
      "extension" := Str(Extension(name))])
  }

  /** A small blob without an extension is shown as plain text, data
      included, whatever the mime guess. */
  lemma SmallBlobWithoutExtensionIsText(name: string, data: string, guess: string -> Option<string>)
    requires '.' !in name && |data| < SizeLimit
    ensures BlobMime(name, |data|, guess) == "text/plain"
    ensures "data" in BlobSummary(name, data, guess).fields
    ensures BlobSummary(name, data, guess).fields["data"] == Str(data)
  {
    assert StartsWith("text/plain", "text");
    BlobSummaryFields(name, data, guess);
  }

  /** One element of a tree listing: a file with its size, a folder, a
      submodule with its url and commit, or an object of unknown type. */
  function ItemSummary(o: GitObject): (r: Json)
    ensures r.Obj? && "name" in r.fields && r.fields["name"] == Str(o.name)
    ensures "size" in r.fields <==> o.Blob?
    ensures "url" in r.fields <==> o.Submodule?
  {
    match o
    case Blob(name, data) => Obj(map["type" := Str("file"), "name" := Str(name), "size" := Num(|data|)])
    case Tree(name, _) => Obj(map["type" := Str("folder"), "name" := Str(name)])
    case Submodule(name, url, id) =>
      Obj(map["type" := Str("submodule"), "name" := Str(name), "url" := Str(url), "commit_id" := Str(id)])
    case Unsupported(name) => Obj(map["type" := Str("unknown"), "name" := Str(name)])
  }

  /** The listing of a tree's entries, in order. */
  function TreeItems(entries: seq<GitObject>): (r: seq<Json>)
    ensures |r| == |entries|
    ensures forall i :: 0 <= i < |r| ==> r[i] == ItemSummary(entries[i])
    decreases |entries|
  {
    if entries == [] then []
    else TreeItems(entries[..|entries| - 1]) + [ItemSummary(entries[|entries| - 1])]
  }

  /** The loop over `tree.values()`. */
  method TreeListing(entries: seq<GitObject>) returns (items: seq<Json>)
    ensures items == TreeItems(entries)
  {
    items := [];
    for i := 0 to |entries|
      invariant items == TreeItems(entries[..i])
    {
      PrefixSnoc(entries, i);
      var o := entries[i];
      match o
      case Blob(name, data) =>
        items := items + [Obj(map["type" := Str("file"), "name" := Str(name), "size" := Num(|data|)])];
      case Tree(name, _) =>
        items := items + [Obj(map["type" := Str("folder"), "name" := Str(name)])];
      case Submodule(name, url, id) =>
        items := items + [Obj(map["type" := Str("submodule"), "name" := Str(name), "url" := Str(url), "commit_id" := Str(id)])];
      case Unsupported(name) =>
        items := items + [Obj(map["type" := Str("unknown"), "name" := Str(name)])];
    }
    assert entries[..|entries|] == entries;
  }

  /** The summary of a submodule: a link to the repository it names. */
  function RemoteLink(name: string, url: string, id: string): Json {
    Obj(map[
      "type" := Obj(map["system" := Str("git"), "class" := Str("submodule")]),
      "name" := Str(name), "url" := Str(url), "id" := Str(id)])
  }

  /** What `_repo_virt_item_summary` answers for the object at `objPath` in
      commit `commitName` of the repository at `repoPath`: a commit that does
      not resolve and a path that leads nowhere raise PathUnfitError, an
      object of unsupported type a plain exception. */
  function VirtItem(store: Store, basePath: string, repoPath: string, commitName: string,
                    objPath: string, guess: string -> Option<string>): (r: Result<(string, Json)>)
    ensures r.Ok? ==> r.value.0 in {"repoitem", "repofolder", "remotelink"}
    ensures r == Err(PathUnfitError) <==>
      match OpenRepo(store, PathJoin(basePath, repoPath))
      case Err(_) => false
      case Ok(repo) =>
        match ResolveCommit(repo, commitName)
        case None => true
        case Some(id) => Descend(repo.commits[id].tree, NonEmpty(Split(Strip(objPath, {'/'}), '/'))).None?
  {
    match OpenRepo(store, PathJoin(basePath, repoPath))
    case Err(e) => Err(e)
    case Ok(repo) =>
      match ResolveCommit(repo, commitName)
      case None => Err(PathUnfitError)
      case Some(id) =>
        match Descend(repo.commits[id].tree, NonEmpty(Split(Strip(objPath, {'/'}), '/')))
        case None => Err(PathUnfitError)
        case Some(t) => ObjectItem(t, guess)
  }

  /** The summary of the object a path leads to, by its type. */
  function ObjectItem(t: GitObject, guess: string -> Option<string>): (r: Result<(string, Json)>)
    ensures r.Ok? ==> r.value.0 in {"repoitem", "repofolder", "remotelink"}
    ensures r.Err? <==> t.Unsupported?
    ensures r.Err? ==> r.error != PathUnfitError
  {
    match t
    case Blob(name, data) => Ok(("repoitem", BlobSummary(name, data, guess)))
    case Tree(_, entries) => Ok(("repofolder", Arr(TreeItems(entries))))
    case Submodule(name, url, id) => Ok(("remotelink", RemoteLink(name, url, id)))
    case Unsupported(_) => Err(GenericException("unsupported repo object type"))
  }

  /** The branch on the type of the object found. */
  method ObjectItemSummary(t: GitObject, guess: string -> Option<string>) returns (r: Result<(string, Json)>)
    ensures r == ObjectItem(t, guess)
  {
    match t
    case Blob(name, data) =>
      r := Ok(("repoitem", BlobSummary(name, data, guess)));
    case Tree(_, entries) =>
      var items := TreeListing(entries);
      r := Ok(("repofolder", Arr(items)));
    case Submodule(name, url, sid) =>
      r := Ok(("remotelink", RemoteLink(name, url, sid)));
    case Unsupported(_) =>
      r := Err(GenericException("unsupported repo object type"));
  }

  /** `_repo_virt_item_summary(repo_path, commit_name, obj_path)`. */
  method VirtItemSummary(store: Store, basePath: string, repoPath: string, commitName: string,
                         objPath: string, guess: string -> Option<string>)
    returns (r: Result<(string, Json)>)
    ensures r == VirtItem(store, basePath, repoPath, commitName, objPath, guess)
  {
    var attempt := OpenRepo(store, PathJoin(basePath, repoPath));
    if attempt.Err? {
      return Err(attempt.error);
    }
    var repo := attempt.value;
    var id := ResolveCommit(repo, commitName);
    if id.None? {
      return Err(PathUnfitError);
    }
    var found := LookupObject(repo.commits[id.value].tree, objPath);
    if found.None? {
      return Err(PathUnfitError);
    }
    r := ObjectItemSummary(found.value, guess);
  }

  /** What `_repo_object_summary` answers: the endpoint list for an empty
      object path, otherwise the object named by the rest of the path in the
      commit named by its first segment. */
  function ObjectSummary(store: Store, basePath: string, repoPath: string, objPath: string,
                         guess: string -> Option<string>, asctime: int -> string): (r: Result<(string, Json)>)
    ensures r.Ok? ==> r.value.0 in {"repo", "repoitem", "repofolder", "remotelink"}
  {
    if objPath == "" then EndpointsResult(store, PathJoin(basePath, repoPath), asctime)
    else
      var v := SplitOnce(Strip(objPath, {'/'}), '/');
      VirtItem(store, basePath, repoPath, v[0], if |v| == 2 then v[1] else "", guess)
  }

  /** The first segment of the object path names the commit and the rest
      the object inside it. */
  lemma ObjectPathSplit(store: Store, basePath: string, repoPath: string, objPath: string,
                        commit: string, rest: string, guess: string -> Option<string>, asctime: int -> string)
    requires objPath != "" && '/' !in commit
    requires Strip(objPath, {'/'}) == commit + "/" + rest
    ensures ObjectSummary(store, basePath, repoPath, objPath, guess, asctime)
         == VirtItem(store, basePath, repoPath, commit, rest, guess)
  {
    SplitOnceAt(commit, rest, '/');
  }

  /** An object path of one segment names a commit's root tree. */
  lemma ObjectPathCommitOnly(store: Store, basePath: string, repoPath: string, objPath: string,
                             guess: string -> Option<string>, asctime: int -> string)
    requires objPath != "" && '/' !in Strip(objPath, {'/'})
    ensures ObjectSummary(store, basePath, repoPath, objPath, guess, asctime)
         == VirtItem(store, basePath, repoPath, Strip(objPath, {'/'}), "", guess)
  {
  }

  /** `_repo_object_summary(repo_path, obj_path)`. */
  method RepoObjectSummary(store: Store, basePath: string, repoPath: string, objPath: string,
                           guess: string -> Option<string>, asctime: int -> string)
    returns (r: Result<(string, Json)>)
    ensures r == ObjectSummary(store, basePath, repoPath, objPath, guess, asctime)
  {
    if objPath == "" {
      r := RepoEndpoints.RepoEndpoints(store, PathJoin(basePath, repoPath), asctime);
    } else {
      var v := SplitOnce(Strip(objPath, {'/'}), '/');
      if |v| == 2 {
        r := VirtItemSummary(store, basePath, repoPath, v[0], v[1], guess);
      } else {
        r := VirtItemSummary(store, basePath, repoPath, v[0], "", guess);
      }
    }
  }

  // ---------------------------------------------------------------------
  // The RPC method

  /** The reply object: the kind of thing the path names, its data, and
      the sanitised path. */
  function Summary(kind: string, data: Json, path: string): Json {
    Obj(map["type" := Str(kind), "data" := data, "meta" := Obj(map["path" := Str(path)])])
  }

  /** What the path names, once sanitised to `p`: a plain folder when no
      repository lies along it and all of it exists, otherwise what
      `_repo_object_summary` says about the rest of the path in the
      repository found; a path running into a file, with no repository
      before it, raises PathUnfitError. */
  function Located(store: Store, basePath: string, p: string,
                   guess: string -> Option<string>, asctime: int -> string): (r: Result<(string, Json)>)
    ensures var found := Scan(store.fs, basePath, Chain(p));
      && (found.0.None? && Join(found.1, "/") != "" ==> r == Err(PathUnfitError))
      && (r.Ok? ==> (r.value.0 == "folder" <==> found.0.None?))
  {
    var found := Scan(store.fs, basePath, Chain(p));
    var unconsumed := Join(found.1, "/");
    if found.0.None? then
      if unconsumed != "" then Err(PathUnfitError)
      else FolderListing(store.fs, PathJoin(basePath, p))
    else ObjectSummary(store, basePath, found.0.value, unconsumed, guess, asctime)
  }

  /** A directory outside every repository, listed as a `folder`. */
  function FolderListing(fs: FileSystem, q: string): (r: Result<(string, Json)>)
    ensures r.Ok? <==> ListDir(fs, q).Some?
    ensures r.Ok? ==> r.value == ("folder", Arr(DirItems(fs, q, ListDir(fs, q).value)))
  {
    match ListDir(fs, q)
    case None => Err(GenericException("no such directory"))
    case Some(names) => Ok(("folder", Arr(DirItems(fs, q, names))))
  }

  /** What `get_path_summary(relative_path)` answers: a path that does not
      sanitise raises PathUnfitError, and every reply carries the sanitised
      path. */
  function PathSummary(store: Store, basePath: string, rel: Json,
                       guess: string -> Option<string>, asctime: int -> string): (r: Result<Json>)
    requires IsAbs(basePath)
    ensures SanitizePath(basePath, rel).Err? ==> r == Err(PathUnfitError)
    ensures r.Ok? ==>
      && SanitizePath(basePath, rel).Ok?
      && r.value.Obj? && "meta" in r.value.fields && "type" in r.value.fields
      && r.value.fields["meta"] == Obj(map["path" := Str(SanitizePath(basePath, rel).value)])
  {
    match SanitizePath(basePath, rel)
    case Err(e) => Err(e)
    case Ok(p) =>
      match Located(store, basePath, p, guess, asctime)
      case Err(e) => Err(e)
      case Ok((kind, data)) => Ok(Summary(kind, data, p))
  }

  /** `get_path_summary(relative_path)`: `guess` stands for
      `mimetypes.guess_type` and `asctime` for `time.asctime`. */
  method GetPathSummary(store: Store, basePath: string, rel: Json,
                        guess: string -> Option<string>, asctime: int -> string)
    returns (r: Result<Json>)
    requires IsAbs(basePath)
    ensures r == PathSummary(store, basePath, rel, guess, asctime)
  {
    var p := SanitizePath(basePath, rel);
    if p.Err? {
      return Err(p.error);
    }
    var repo, unconsumed := FindRepoInPath(store.fs, basePath, p.value);
    if repo.None? {
      if unconsumed != "" {
        return Err(PathUnfitError);
      }
      var items := ListDirSummary(store.fs, basePath, p.value);
      if items.Err? {
        return Err(items.error);
      }
      return Ok(Summary("folder", Arr(items.value), p.value));
    }
    var summary := RepoObjectSummary(store, basePath, repo.value, unconsumed, guess, asctime);
    if summary.Err? {
      return Err(summary.error);
    }
    var (kind, data) := summary.value;
    return Ok(Summary(kind, data, p.value));
  }
}
