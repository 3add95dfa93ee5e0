/** What the path handlers of `ges_rpc_methods.py` and
    `fuzzy_path_handler.py` read from the outside world, as values: the file
    system (which paths are directories and what they list), the git
    repositories found in it, and the objects of their commits. Also the
    search for a repository along a path, which both files implement with
    the same code. */
module RepoStore {
  import opened Wrappers
  import opened PyText
  import opened PosixPath

  /** A file-system entry: a directory with the names it lists, or anything
      else (a file, a link to a file). */
  datatype Node = File | Dir(entries: seq<string>)

  /** The file system, keyed by normalised absolute path; a path that is not
      a key does not exist. */
  type FileSystem = map<string, Node>

  /** `os.path.isdir(p)`. */
  predicate IsDir(fs: FileSystem, p: string) {
    NormPath(p) in fs && fs[NormPath(p)].Dir?
  }

  /** `os.listdir(p)`: None where it raises (no such directory). */
  function ListDir(fs: FileSystem, p: string): (r: Option<seq<string>>)
    ensures r.Some? <==> IsDir(fs, p)
  {
    if IsDir(fs, p) then Some(fs[NormPath(p)].entries) else None
  }

  /** The entries a git directory has, compared case-insensitively:
      `git_folder_signature`. */
  const Signature: set<string> := {"head", "info", "objects", "refs"}

  function LowerNames(names: seq<string>): set<string> {
    set n | n in names :: Lower(n)
  }

  /** A directory whose lower-cased listing includes the signature. */
  predicate IsRepoDir(fs: FileSystem, p: string) {
    IsDir(fs, p) && Signature <= LowerNames(fs[NormPath(p)].entries)
  }

  /** A directory that is not a repository: the search walks on through it. */
  predicate IsPlainDir(fs: FileSystem, p: string) {
    IsDir(fs, p) && !IsRepoDir(fs, p)
  }

  /** The segments searched: `relative_path.split('/')`, with an empty first
      segment put in front when there is none, so the base itself is looked
      at first. */
  function Chain(rel: string): (r: seq<string>)
    ensures |r| >= 1 && r[0] == ""
    ensures r[1..] == Split(rel, '/')[1..] || r[1..] == Split(rel, '/')
  {
    var c := Split(rel, '/');
    if c[0] != "" then [""] + c else c
  }

  /** The path reached from `p` by joining each of `segs` in turn. */
  function Walked(p: string, segs: seq<string>): string
    decreases |segs|
  {
    if segs == [] then p else Walked(PathJoin(p, segs[0]), segs[1..])
  }

  /** The path the search looks at in its `j`-th step (from 0). */
  function StepPath(p: string, chain: seq<string>, j: nat): string
    requires j < |chain|
  {
    Walked(p, chain[..j + 1])
  }

  /** What the search finds from `p` over the remaining `chain`: the first
      repository directory and the segments after it; or, at the first path
      that is not a directory, no repository and the remaining segments
      headed by that path's last component; or, when every path is a plain
      directory, no repository and nothing left. */
  function Scan(fs: FileSystem, p: string, chain: seq<string>): (Option<string>, seq<string>)
    decreases |chain|
  {
    if chain == [] then (None, [])
    else
      var q := PathJoin(p, chain[0]);
      if IsRepoDir(fs, q) then (Some(q), chain[1..])
      else if !IsDir(fs, q) then (None, [Tail(q)] + chain[1..])
      else Scan(fs, q, chain[1..])
  }

  /** `_find_repo_in_path(relative_path)`: the repository on the path, if
      any, and the unconsumed segments joined with slashes. */
  method FindRepoInPath(fs: FileSystem, basePath: string, rel: string)
    returns (repo: Option<string>, unconsumed: string)
    ensures var (found, rest) := Scan(fs, basePath, Chain(rel));
      repo == found && unconsumed == Join(rest, "/")
  {
    var chain := Split(rel, '/');
    if chain[0] != "" {
      chain := [""] + chain;
    }
    var p := basePath;
    while chain != []
      invariant Scan(fs, basePath, Chain(rel)) == Scan(fs, p, chain)
      decreases |chain|
    {
      p := PathJoin(p, chain[0]);
      chain := chain[1..];
      var d := IsDir(fs, p);
      if d && IsRepoDir(fs, p) {
        return Some(p), Join(chain, "/");
      } else if !d {
        chain := [Tail(p)] + chain;
        return None, Join(chain, "/");
      }
    }
    return None, "";
  }

  /** The search's first step looks at `p` joined with the first segment. */
  lemma StepPathFirst(p: string, chain: seq<string>)
    requires chain != []
    ensures StepPath(p, chain, 0) == PathJoin(p, chain[0])
  {
    assert chain[..1] == [chain[0]];
    assert Walked(p, [chain[0]]) == Walked(PathJoin(p, chain[0]), []);
  }

  /** Every later step of the search from `p` is a step of the search from
      `p` joined with the first segment. */
  lemma StepPathNext(p: string, chain: seq<string>, j: nat)
    requires j + 1 < |chain|
    ensures StepPath(p, chain, j + 1) == StepPath(PathJoin(p, chain[0]), chain[1..], j)
  {
    assert chain[..j + 2][0] == chain[0];
    assert chain[..j + 2][1..] == chain[1..][..j + 1];
  }

  /** The plain directories met in the first `k` steps from `p` are the ones
      met in the first `k - 1` steps from the first of them. */
  lemma PlainPrefixNext(fs: FileSystem, p: string, chain: seq<string>, k: nat)
    requires 0 < k <= |chain|
    requires forall j :: 0 <= j < k ==> IsPlainDir(fs, StepPath(p, chain, j))
    ensures forall j :: 0 <= j < k - 1 ==> IsPlainDir(fs, StepPath(PathJoin(p, chain[0]), chain[1..], j))
  {
    forall j | 0 <= j < k - 1
      ensures IsPlainDir(fs, StepPath(PathJoin(p, chain[0]), chain[1..], j))
    {
      StepPathNext(p, chain, j);
      assert IsPlainDir(fs, StepPath(p, chain, j + 1));
    }
  }

  /** The repository found is the first directory along the chain that
      carries the signature; the segments after it are left unconsumed. */
  lemma {:induction false} ScanFindsRepo(fs: FileSystem, p: string, chain: seq<string>, k: nat)
    requires k < |chain|
    requires forall j :: 0 <= j < k ==> IsPlainDir(fs, StepPath(p, chain, j))
    requires IsRepoDir(fs, StepPath(p, chain, k))
    ensures Scan(fs, p, chain) == (Some(StepPath(p, chain, k)), chain[k + 1..])
    decreases k
  {
    StepPathFirst(p, chain);
    if k > 0 {
      var q := PathJoin(p, chain[0]);
      assert IsPlainDir(fs, StepPath(p, chain, 0));
      PlainPrefixNext(fs, p, chain, k);
      StepPathNext(p, chain, k - 1);
      ScanFindsRepo(fs, q, chain[1..], k - 1);
      assert chain[1..][k..] == chain[k + 1..];
    }
  }

  /** At the first path that is not a directory the search gives up: no
      repository, and the unconsumed part starts with that path's last
      component. */
  lemma {:induction false} ScanStopsAtNonDir(fs: FileSystem, p: string, chain: seq<string>, k: nat)
    requires k < |chain|
    requires forall j :: 0 <= j < k ==> IsPlainDir(fs, StepPath(p, chain, j))
    requires !IsDir(fs, StepPath(p, chain, k))
    ensures Scan(fs, p, chain) == (None, [Tail(StepPath(p, chain, k))] + chain[k + 1..])
    decreases k
  {
    StepPathFirst(p, chain);
    if k > 0 {
      var q := PathJoin(p, chain[0]);
      assert IsPlainDir(fs, StepPath(p, chain, 0));
      PlainPrefixNext(fs, p, chain, k);
      StepPathNext(p, chain, k - 1);
      ScanStopsAtNonDir(fs, q, chain[1..], k - 1);
      assert chain[1..][k..] == chain[k + 1..];
    }
  }

  /** When every path along the chain is a plain directory, there is no
      repository and nothing is left unconsumed. */
  lemma {:induction false} ScanAllPlain(fs: FileSystem, p: string, chain: seq<string>)
    requires forall j :: 0 <= j < |chain| ==> IsPlainDir(fs, StepPath(p, chain, j))
    ensures Scan(fs, p, chain) == (None, [])
    decreases |chain|
  {
    if chain != [] {
      StepPathFirst(p, chain);
      assert IsPlainDir(fs, StepPath(p, chain, 0));
      PlainPrefixNext(fs, p, chain, |chain|);
      ScanAllPlain(fs, PathJoin(p, chain[0]), chain[1..]);
    }
  }

  /** The first path the search looks at is the base itself (with a slash
      appended). */
  lemma BaseCheckedFirst(basePath: string, rel: string)
    ensures StepPath(basePath, Chain(rel), 0) == PathJoin(basePath, "")
  {
    StepPathFirst(basePath, Chain(rel));
  }

  /** A repository object: `git.Blob`, `git.Tree`, `git.Submodule`, or an
      object of any other type. A blob's size is the length of its data. */
  datatype GitObject =
    | Blob(name: string, data: string)
    | Tree(name: string, entries: seq<GitObject>)
    | Submodule(name: string, url: string, id: string)
    | Unsupported(name: string)

  /** `tree[name]`: the entry of that name; looking up in anything but a
      tree, or a name the tree lacks, raises (None). */
  function Child(t: GitObject, name: string): (r: Option<GitObject>)
    ensures r.Some? ==> t.Tree? && r.value in t.entries && r.value.name == name
    ensures t.Tree? && (exists e :: e in t.entries && e.name == name) ==> r.Some?
    decreases if t.Tree? then |t.entries| else 0
  {
    if !t.Tree? || t.entries == [] then None
    else if t.entries[0].name == name then Some(t.entries[0])
    else
      var rest := Child(Tree(t.name, t.entries[1..]), name);
      assert forall e :: e in t.entries[1..] ==> e in t.entries;
      rest
  }

  /** Looking up `names` one after the other from `t`. */
  function Descend(t: GitObject, names: seq<string>): (r: Option<GitObject>)
    ensures names == [] ==> r == Some(t)
    decreases |names|
  {
    if names == [] then Some(t)
    else
      match Child(t, names[0])
      case None => None
      case Some(c) => Descend(c, names[1..])
  }

  /** The lookup of `obj_path` inside a commit's tree: the non-empty
      segments of `obj_path.strip('/').split('/')` are looked up in turn;
      None where a lookup raises. */
  method LookupObject(root: GitObject, objPath: string) returns (r: Option<GitObject>)
    ensures r == Descend(root, NonEmpty(Split(Strip(objPath, {'/'}), '/')))
  {
    var segs := Split(Strip(objPath, {'/'}), '/');
    var t := root;
    var i := 0;
    while i < |segs|
      invariant 0 <= i <= |segs|
      invariant Descend(root, NonEmpty(segs)) == Descend(t, NonEmpty(segs[i..]))
    {
      assert segs[i..][0] == segs[i] && segs[i..][1..] == segs[i + 1..];
      if segs[i] != "" {
        var c := Child(t, segs[i]);
        if c.None? {
          return None;
        }
        t := c.value;
      }
      i := i + 1;
    }
    return Some(t);
  }

  /** Empty segments change nothing: `a//b` and `/a/b/` name what `a/b`
      names. */
  lemma EmptySegmentsIgnored(a: string, b: string)
    requires a != "" && b != "" && '/' !in a && '/' !in b
    ensures NonEmpty(Split(a + "//" + b, '/')) == [a, b]
  {
    SplitNoSep(a, '/');
    SplitNoSep(b, '/');
    SplitAppend(a, "/" + b, '/');
    assert a + "//" + b == a + ['/'] + ("/" + b);
    SplitAppend("", b, '/');
    assert "/" + b == [] + ['/'] + b;
  }

  /** A commit, by what the endpoint list shows of it and its root tree. */
  datatype CommitInfo = CommitInfo(
    committedDate: int, authoredDate: int, author: string, authorEmail: string,
    summary: string, tree: GitObject)

  /** A branch and the id of the commit at its head. */
  datatype Branch = Branch(name: string, commitId: string)

  /** A repository: its commits by id; every name `repo.commit(name)`
      accepts (ids, tag and branch names, `HEAD`) with the id it stands for;
      its tags and branches in the order the library lists them; and its
      description. */
  datatype Repo = Repo(
    commits: map<string, CommitInfo>, refs: map<string, string>,
    tags: seq<string>, branches: seq<Branch>, description: string)

  /** `repo.commit(name).id`, or None where the lookup raises. */
  function ResolveCommit(repo: Repo, name: string): (r: Option<string>)
    ensures r.Some? ==> r.value in repo.commits
    ensures r.Some? <==> name in repo.refs && repo.refs[name] in repo.commits
  {
    if name in repo.refs && repo.refs[name] in repo.commits then Some(repo.refs[name]) else None
  }

  /** The outside world of the path handlers: the file system and the
      repositories `git.Repo(path)` opens, keyed by the path given. */
  datatype Store = Store(fs: FileSystem, repos: map<string, Repo>)

  /** `git.Repo(path)`: a path that is not a repository raises. */
  function OpenRepo(store: Store, path: string): (r: Result<Repo>)
    ensures r.Ok? <==> path in store.repos
    ensures r.Ok? ==> r.value == store.repos[path]
  {
    if path in store.repos then Ok(store.repos[path])
    else Err(GenericException("not a git repository"))
  }
}
