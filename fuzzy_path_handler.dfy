/** `FuzzyPathHandler` of `fuzzy_path_handler.py`: the WSGI application that
    serves objects inside a repository's commits as downloads. A blob is
    sent as it is; a tree is sent as a zip archive. The request path is
    checked against the served root, the repository is found along it, and
    the reply carries the date, cache validators and download name. */
module FuzzyPathHandler {
  import opened Wrappers
  import opened PyText
  import opened PosixPath
  import opened RepoStore
  import opened WsgiCommon
  import opened ContentDisposition

  // ---------------------------------------------------------------------
  // Sanitising a path

  /** The characters both ends of a path are stripped of, in one pass. */
  const Slashes: set<char> := {'/', '\\'}

  /** The path `_sanitize_path` checks: the request path stripped of
      slashes and backslashes at both ends, joined to the base and
      normalised. */
  function FullPath(basePath: string, rel: string): (r: string)
    requires IsAbs(basePath)
    ensures IsAbs(r)
  {
    NormPath(PathJoin(basePath, Strip(rel, Slashes)))
  }

  /** Stripping both kinds of slash in one pass leaves a relative path, so
      the join always extends the base before normalisation. */
  lemma JoinKeepsBase(basePath: string, rel: string)
    requires IsAbs(basePath)
    ensures StartsWith(PathJoin(basePath, Strip(rel, Slashes)), basePath)
  {
    var s := Strip(rel, Slashes);
    assert !(|s| > 0 && s[0] == '/');
  }

  /** `_sanitize_path(relative_path)`: a path whose normalised form does
      not begin with the base raises PathUnfitError; otherwise the part after
      the base, stripped and with backslashes turned into slashes. */
  function SanitizePath(basePath: string, rel: string): (r: Result<string>)
    requires IsAbs(basePath)
    ensures r.Err? ==> r.error == PathUnfitError
    ensures r.Ok? <==> StartsWith(FullPath(basePath, rel), basePath)
    ensures r.Ok? ==> '\\' !in r.value
    ensures r.Ok? ==> |r.value| <= |FullPath(basePath, rel)| - |basePath|
  {
    var full := FullPath(basePath, rel);
    if !StartsWith(full, basePath) then Err(PathUnfitError)
    else Ok(ReplaceChar(Strip(full[|basePath|..], Slashes), '\\', '/'))
  }

  // ---------------------------------------------------------------------
  // The object a path names

  /** What `_get_repo_item_contents` hands back: the content, its mime
      type, its size when known, and the file name to suggest. */
  datatype Contents = Contents(data: string, mime: string, size: Option<nat>, fileName: string)

  /** A call of `git archive` in zip format: the repository, the commit,
      the path inside it and the prefix of every archived name. */
  datatype ArchiveRequest = ArchiveRequest(repo: string, commit: string, objPath: string, prefix: string)

  /** `mimetypes.guess_type(path)[0] or 'application/octet-stream'`, with
      `guess` standing for the guess. */
  function GuessedMime(path: string, guess: string -> Option<string>): (r: string)
    ensures r != ""
    ensures guess(path).Some? && guess(path).value != "" ==> r == guess(path).value
  {
    var g := guess(path).GetOr("");
    if g != "" then g else "application/octet-stream"
  }

  /** `name_elements`: the repository's directory name, when it has one,
      and the commit name. */
  function NameElements(repoPath: string, commitName: string): (r: seq<string>)
    ensures |r| >= 1 && r[|r| - 1] == commitName
    ensures Tail(repoPath) != "" ==> r == [Tail(repoPath), commitName]
  {
    var tail := Tail(repoPath);
    if tail != "" then [tail, commitName] else [commitName]
  }

  /** The object `obj_path` names in the commit `commit_name` of `repo`:
      None for an unknown commit or a path that leads nowhere. */
  function ObjectAt(repo: Repo, commitName: string, objPath: string): Option<GitObject> {
    match ResolveCommit(repo, commitName)
    case None => None
    case Some(id) => Descend(repo.commits[id].tree, NonEmpty(Split(Strip(objPath, {'/'}), '/')))
  }

  /** The `git archive` call that zips the tree at `obj_path`: every
      archived name is prefixed with the name elements joined by slashes. */
  function ZipRequest(basePath: string, repoPath: string, commitName: string, objPath: string): (q: ArchiveRequest)
    ensures q.repo == PathJoin(basePath, repoPath) && q.commit == commitName && q.objPath == objPath
    ensures q.prefix == Join(NameElements(repoPath, commitName), "/") + "/"
  {
    ArchiveRequest(PathJoin(basePath, repoPath), commitName, objPath,
                   Join(NameElements(repoPath, commitName), "/") + "/")
  }

  /** What `_get_repo_item_contents(repo_path, commit_name, obj_path)`
      gives: a blob as it is, named after the last segment of the path; a
      tree as the zip archive `archive` makes of it, named after the
      repository and the commit; anything else, an unknown commit or an
      object path that leads nowhere raises PathUnfitError, as does an
      archive that fails. */
  function ItemContents(store: Store, basePath: string, repoPath: string, commitName: string,
                        objPath: string, guess: string -> Option<string>,
                        archive: ArchiveRequest -> Option<string>): (r: Result<Contents>)
    ensures r.Err? ==> r.error == PathUnfitError || OpenRepo(store, PathJoin(basePath, repoPath)).Err?
    ensures OpenRepo(store, PathJoin(basePath, repoPath)).Err? ==>
      r == Err(OpenRepo(store, PathJoin(basePath, repoPath)).error)
    ensures r.Ok? && r.value.size.Some? ==>
      && r.value.size.value == |r.value.data|
      && r.value.fileName == Tail(objPath)
      && r.value.mime == GuessedMime(objPath, guess)
    ensures r.Ok? && r.value.size.None? ==>
      && r.value.mime == "application/zip"
      && r.value.fileName == Join(NameElements(repoPath, commitName), "_") + ".zip"
    ensures OpenRepo(store, PathJoin(basePath, repoPath)).Ok? ==>
      var found := ObjectAt(OpenRepo(store, PathJoin(basePath, repoPath)).value, commitName, objPath);
      && (found.None? ==> r == Err(PathUnfitError))
      && (found.Some? && found.value.Blob? ==>
            r == Ok(Contents(found.value.data, GuessedMime(objPath, guess), Some(|found.value.data|), Tail(objPath))))
      && (found.Some? && found.value.Tree? ==>
            (r.Ok? <==> archive(ZipRequest(basePath, repoPath, commitName, objPath)).Some?) &&
            (r.Ok? ==> r.value.data == archive(ZipRequest(basePath, repoPath, commitName, objPath)).value))
      && (found.Some? && !found.value.Blob? && !found.value.Tree? ==> r == Err(PathUnfitError))
  {
    match OpenRepo(store, PathJoin(basePath, repoPath))
    case Err(e) => Err(e)
    case Ok(repo) =>
      match ObjectAt(repo, commitName, objPath)
      case None => Err(PathUnfitError)
      case Some(t) =>
        if t.Blob? then
          Ok(Contents(t.data, GuessedMime(objPath, guess), Some(|t.data|), Tail(objPath)))
        else if t.Tree? then ZipContents(basePath, repoPath, commitName, objPath, archive)
        else Err(PathUnfitError)
  }

  /** A tree as a zip archive: the archive `git archive` makes, or
      PathUnfitError when it fails. */
  function ZipContents(basePath: string, repoPath: string, commitName: string, objPath: string,
                       archive: ArchiveRequest -> Option<string>): (r: Result<Contents>)
    ensures r.Err? ==> r.error == PathUnfitError
    ensures r.Ok? <==> archive(ZipRequest(basePath, repoPath, commitName, objPath)).Some?
    ensures r.Ok? ==>
      && r.value.data == archive(ZipRequest(basePath, repoPath, commitName, objPath)).value
      && r.value.size.None? && r.value.mime == "application/zip"
      && r.value.fileName == Join(NameElements(repoPath, commitName), "_") + ".zip"
  {
    match archive(ZipRequest(basePath, repoPath, commitName, objPath))
    case None => Err(PathUnfitError)
    case Some(zip) => Ok(Contents(zip, "application/zip", None, Join(NameElements(repoPath, commitName), "_") + ".zip"))
  }

  /** A tree of a repository in a named directory downloads as
      `<directory>_<commit>.zip`. */
  lemma ZipName(repoPath: string, commitName: string)
    requires Tail(repoPath) != ""
    ensures Join(NameElements(repoPath, commitName), "_") + ".zip" == Tail(repoPath) + "_" + commitName + ".zip"
  {
  }

  /** `_get_repo_item_contents(repo_path, commit_name, obj_path)`. */
  method GetRepoItemContents(store: Store, basePath: string, repoPath: string, commitName: string,
                             objPath: string, guess: string -> Option<string>,
                             archive: ArchiveRequest -> Option<string>)
    returns (r: Result<Contents>)
    ensures r == ItemContents(store, basePath, repoPath, commitName, objPath, guess, archive)
  {
    var attempt := OpenRepo(store, PathJoin(basePath, repoPath));
    if attempt.Err? {
      return Err(attempt.error);
    }
    var repo := attempt.value;
    var id := ResolveCommit(repo, commitName);
    if id.None? {
      return Err(PathUnfitError);
    }
    var found := LookupObject(repo.commits[id.value].tree, objPath);
    if found.None? {
      return Err(PathUnfitError);
    }
    var t := found.value;
    if t.Blob? {
      return Ok(Contents(t.data, GuessedMime(objPath, guess), Some(|t.data|), Tail(objPath)));
    } else if t.Tree? {
      return ZipContents(basePath, repoPath, commitName, objPath, archive);
    }
    return Err(PathUnfitError);
  }

  /** What `_get_path_contents(relative_path)` gives: nothing outside a
      repository is served; a path that ends at the repository means its
      `HEAD`; otherwise the first segment after the repository names the
      commit and the rest the object. */
  function PathContents(store: Store, basePath: string, rel: string, guess: string -> Option<string>,
                        archive: ArchiveRequest -> Option<string>): (r: Result<Contents>)
    requires IsAbs(basePath)
    ensures SanitizePath(basePath, rel).Err? ==> r == Err(PathUnfitError)
    ensures SanitizePath(basePath, rel).Ok? && Scan(store.fs, basePath, Chain(SanitizePath(basePath, rel).value)).0.None?
      ==> r == Err(PathUnfitError)
  {
    match SanitizePath(basePath, rel)
    case Err(e) => Err(e)
    case Ok(p) =>
      var (repo, rest) := Scan(store.fs, basePath, Chain(p));
      if repo.None? then Err(PathUnfitError)
      else
        var unconsumed := Join(rest, "/");
        var objPath := if unconsumed == "" then "HEAD" else unconsumed;
        var v := SplitOnce(Strip(objPath, {'/'}), '/');
        ItemContents(store, basePath, repo.value, v[0], if |v| == 2 then v[1] else "", guess, archive)
  }

  /** A path that ends at a repository downloads its `HEAD` commit. */
  lemma RepositoryMeansHead(store: Store, basePath: string, rel: string, guess: string -> Option<string>,
                            archive: ArchiveRequest -> Option<string>)
    requires IsAbs(basePath) && SanitizePath(basePath, rel).Ok?
    requires var (repo, rest) := Scan(store.fs, basePath, Chain(SanitizePath(basePath, rel).value));
      repo.Some? && Join(rest, "/") == ""
    ensures PathContents(store, basePath, rel, guess, archive)
         == ItemContents(store, basePath, Scan(store.fs, basePath, Chain(SanitizePath(basePath, rel).value)).0.value,
                         "HEAD", "", guess, archive)
  {
    HeadSplit();
  }

  /** `'HEAD'.strip('/').split('/', 1)` is `['HEAD']`. */
  lemma HeadSplit()
    ensures SplitOnce(Strip("HEAD", {'/'}), '/') == ["HEAD"]
  {
    assert LStrip("HEAD", {'/'}) == "HEAD";
    assert RStrip("HEAD", {'/'}) == "HEAD";
    assert '/' !in "HEAD";
  }

  /** `_get_path_contents(relative_path)`. */
  method GetPathContents(store: Store, basePath: string, rel: string, guess: string -> Option<string>,
                         archive: ArchiveRequest -> Option<string>)
    returns (r: Result<Contents>)
    requires IsAbs(basePath)
    ensures r == PathContents(store, basePath, rel, guess, archive)
  {
    var p := SanitizePath(basePath, rel);
    if p.Err? {
      return Err(p.error);
    }
    var repo, unconsumed := FindRepoInPath(store.fs, basePath, p.value);
    if repo.None? {
      return Err(PathUnfitError);
    }
    if unconsumed == "" {
      unconsumed := "HEAD";
    }
    var v := SplitOnce(Strip(unconsumed, {'/'}), '/');
    if |v| == 2 {
      r := GetRepoItemContents(store, basePath, repo.value, v[0], v[1], guess, archive);
    } else {
      r := GetRepoItemContents(store, basePath, repo.value, v[0], "", guess, archive);
    }
  }

  // ---------------------------------------------------------------------
  // Conditional requests

  /** Python's ordering of two tuples of numbers: element by element, a
      proper prefix first. */
  predicate TupleLe(a: seq<int>, b: seq<int>)
    decreases |a|
  {
    a == [] || (b != [] && (a[0] < b[0] || (a[0] == b[0] && TupleLe(a[1..], b[1..]))))
  }

  lemma {:induction false} TupleLeReflexive(a: seq<int>)
    ensures TupleLe(a, a)
    decreases |a|
  {
    if a != [] {
      TupleLeReflexive(a[1..]);
    }
  }

  /** `a >= b` for two results of `email.utils.parsedate`, in Python 2:
      None (a date that does not parse) is below every tuple. */
  predicate ParsedGe(a: Option<seq<int>>, b: Option<seq<int>>) {
    match b
    case None => true
    case Some(y) => a.Some? && TupleLe(y, a.value)
  }

  /** The request's cache headers and the path it asks for. */
  datatype Environ = Environ(
    workingPath: Option<string>,        // the `working_path` group of the routing arguments
    pathInfo: Option<string>,           // PATH_INFO
    ifModifiedSince: Option<string>,    // HTTP_IF_MODIFIED_SINCE
    ifNoneMatch: Option<string>)        // HTTP_IF_NONE_MATCH

  /** The reply's time stamps: `str(mtime)`, `formatdate(mtime)` and
      `formatdate(time.time())`. */
  datatype Clock = Clock(etag: string, lastModified: string, date: string)

  /** The client's copy is current by date: `If-Modified-Since` is given
      and parses to no earlier a date than `Last-Modified`. */
  predicate FreshByDate(env: Environ, clock: Clock, parsedate: string -> Option<seq<int>>) {
    && env.ifModifiedSince.Some? && env.ifModifiedSince.value != ""
    && ParsedGe(parsedate(env.ifModifiedSince.value), parsedate(clock.lastModified))
  }

  /** The client's copy is current by tag: `If-None-Match` is `*` or
      contains the tag. */
  predicate FreshByTag(env: Environ, clock: Clock) {
    && env.ifNoneMatch.Some? && env.ifNoneMatch.value != ""
    && (env.ifNoneMatch.value == "*" || Contains(env.ifNoneMatch.value, clock.etag))
  }

  /** A client sending back the very `Last-Modified` it was given is told
      its copy is current. */
  lemma SameDateIsFresh(env: Environ, clock: Clock, parsedate: string -> Option<seq<int>>)
    requires env.ifModifiedSince == Some(clock.lastModified) && clock.lastModified != ""
    ensures FreshByDate(env, clock, parsedate)
  {
    if parsedate(clock.lastModified).Some? {
      TupleLeReflexive(parsedate(clock.lastModified).value);
    }
  }

  /** A client sending back the very tag it was given is told its copy is
      current. */
  lemma SameTagIsFresh(env: Environ, clock: Clock)
    requires env.ifNoneMatch == Some(clock.etag) && clock.etag != ""
    ensures FreshByTag(env, clock)
  {
    assert OccursAt(clock.etag, clock.etag, 0);
  }

  // ---------------------------------------------------------------------
  // The reply

  /** The headers every reply starts from. */
  function BaseHeaders(clock: Clock): seq<Header> {
    [Header("Content-type", "text/plain"), Header("Date", clock.date),
     Header("Last-Modified", clock.lastModified), Header("ETag", clock.etag)]
  }

  /** A header list handed on as tuples `(name, value)`. */
  function AsSpecs(hs: seq<Header>): (r: seq<HeaderSpec>)
    ensures |r| == |hs|
    ensures forall i :: 0 <= i < |hs| ==> r[i] == HeaderSpec(hs[i].name, [hs[i].value])
  {
    seq(|hs|, i requires 0 <= i < |hs| => HeaderSpec(hs[i].name, [hs[i].value]))
  }

  /** The headers of a download: the base ones, then the length when it is
      known, the type, and the suggested file name when there is one. */
  function DownloadHeaders(clock: Clock, c: Contents): seq<Header> {
    var hs := SizedHeaders(clock, c);
    var hs := SetHeader(hs, "Content-Type", c.mime);
    if c.fileName != "" then SetHeader(hs, "Content-Disposition", DispositionValue(c.fileName)) else hs
  }

  /** A canned reply, as `canned_handlers` builds it for a known code. */
  function Canned(code: string, headers: seq<HeaderSpec>): Response
    requires code in CannedCollection
  {
    Response(CannedCollection[code], MergeAll([TextPlain], headers), [""])
  }

  /** The path the request names: the routing argument when there is one,
      otherwise PATH_INFO. */
  function RequestPath(env: Environ): string {
    if env.workingPath.Some? then env.workingPath.value else env.pathInfo.GetOr("")
  }

  /** The path below the served root `root` that the request names, or
      None when the request leads outside it. */
  function Target(cwd: string, contentPath: string, env: Environ): Option<string>
    requires IsAbs(cwd)
  {
    var root := AbsPath(cwd, contentPath);
    var full := AbsPath(cwd, PathJoin(contentPath, Strip(RequestPath(env), Slashes)));
    if !StartsWith(full, root) then None
    else Some(Strip(full[|root|..], Slashes))
  }

  /** The reply once the request's target has been looked up: 404 for
      anything that cannot be served, 304 when the client's copy is current
      by date or by tag, and otherwise the content. */
  function ContentReply(contents: Result<Contents>, env: Environ, clock: Clock,
                        parsedate: string -> Option<seq<int>>): Response
  {
    match contents
    case Err(_) => Canned("404", [])
    case Ok(c) =>
      if FreshByDate(env, clock, parsedate) || FreshByTag(env, clock) then
        Canned("not_modified", AsSpecs(BaseHeaders(clock)))
      else Response("200 OK", MergeAll([OctetStream], AsSpecs(DownloadHeaders(clock, c))), [c.data])
  }

  /** What `__call__` answers: 403 for a path outside the served root,
      otherwise the reply for what the path names. The served root is
      `content_path`, made absolute against `cwd`. */
  function Reply(store: Store, cwd: string, contentPath: string, env: Environ, clock: Clock,
                 guess: string -> Option<string>, archive: ArchiveRequest -> Option<string>,
                 parsedate: string -> Option<seq<int>>): Response
    requires IsAbs(cwd)
  {
    match Target(cwd, contentPath, env)
    case None => Canned("forbidden", [])
    case Some(p) => ContentReply(PathContents(store, AbsPath(cwd, contentPath), p, guess, archive), env, clock, parsedate)
  }

  /** Handing a list on as tuples and merging it keeps, for each name, the
      last value the list holds. */
  lemma {:induction false} LastSpecOfList(hs: seq<Header>, m: string)
    ensures var vs := Values(hs, m);
      LastSpecValue(AsSpecs(hs), m) == if vs == [] then None else Some(vs[|vs| - 1])
    decreases |hs|
  {
    if hs != [] {
      var front := hs[..|hs| - 1];
      assert AsSpecs(hs)[..|hs| - 1] == AsSpecs(front);
      assert SpecValue(AsSpecs(hs)[|hs| - 1]) == hs[|hs| - 1].value;
      LastSpecOfList(front, m);
    }
  }

  /** Names of different lengths never match. */
  lemma DifferentNames(a: string, b: string)
    requires |a| != |b|
    ensures !SameName(a, b)
  {
    assert |Lower(a)| != |Lower(b)|;
  }

  /** A list with no header of a name has no value under it. */
  lemma {:induction false} NoValues(hs: seq<Header>, m: string)
    requires forall i :: 0 <= i < |hs| ==> !SameName(hs[i].name, m)
    ensures Values(hs, m) == []
    decreases |hs|
  {
    if hs != [] {
      NoValues(hs[..|hs| - 1], m);
    }
  }

  /** The base headers carry the tag and neither a length nor a
      disposition. */
  lemma BaseHeaderValues(clock: Clock)
    ensures Values(BaseHeaders(clock), "Content-Length") == []
    ensures Values(BaseHeaders(clock), "Content-Disposition") == []
    ensures Values(BaseHeaders(clock), "ETag") == [clock.etag]
  {
    var base := BaseHeaders(clock);
    DifferentNames("Content-type", "Content-Length");
    DifferentNames("Date", "Content-Length");
    DifferentNames("Last-Modified", "Content-Length");
    DifferentNames("ETag", "Content-Length");
    NoValues(base, "Content-Length");
    DifferentNames("Content-type", "Content-Disposition");
    DifferentNames("Date", "Content-Disposition");
    DifferentNames("Last-Modified", "Content-Disposition");
    DifferentNames("ETag", "Content-Disposition");
    NoValues(base, "Content-Disposition");
    DifferentNames("Content-type", "ETag");
    assert !SameName("Date", "ETag") by {
      assert Lower("Date")[0] != Lower("ETag")[0];
    }
    DifferentNames("Last-Modified", "ETag");
    NoValues(base[..3], "ETag");
    assert SameName("ETag", "ETag");
  }

  /** The header values of a download before the merge: one type, one
      length exactly when the size is known, one tag, one disposition
      exactly when there is a file name. */
  lemma DownloadHeaderValues(clock: Clock, c: Contents)
    ensures Values(DownloadHeaders(clock, c), "Content-Type") == [c.mime]
    ensures Values(DownloadHeaders(clock, c), "Content-Length") == if c.size.Some? then [Decimal(c.size.value)] else []
    ensures Values(DownloadHeaders(clock, c), "ETag") == [clock.etag]
    ensures Values(DownloadHeaders(clock, c), "Content-Disposition")
         == if c.fileName != "" then [DispositionValue(c.fileName)] else []
  {
    BaseHeaderValues(clock);
    var hs1 := SizedHeaders(clock, c);
    SizedHeaderValues(clock, c);
    var hs2 := SetHeader(hs1, "Content-Type", c.mime);
    TypedHeaderValues(hs1, c.mime, clock.etag);
    if c.fileName != "" {
      DispositionHeaderValues(hs2, DispositionValue(c.fileName), clock.etag);
    }
  }

  /** The base headers with the length set when it is known. */
  function SizedHeaders(clock: Clock, c: Contents): seq<Header> {
    var base := BaseHeaders(clock);
    if c.size.Some? then SetHeader(base, "Content-Length", Decimal(c.size.value)) else base
  }

  lemma SizedHeaderValues(clock: Clock, c: Contents)
    ensures Values(SizedHeaders(clock, c), "Content-Length") == if c.size.Some? then [Decimal(c.size.value)] else []
    ensures Values(SizedHeaders(clock, c), "Content-Disposition") == []
    ensures Values(SizedHeaders(clock, c), "ETag") == [clock.etag]
  {
    BaseHeaderValues(clock);
    var base := BaseHeaders(clock);
    if c.size.Some? {
      var v := Decimal(c.size.value);
      DifferentNames("Content-Length", "ETag");
      DifferentNames("Content-Length", "Content-Disposition");
      SetHeaderValues(base, "Content-Length", v, "Content-Length");
      SetHeaderValues(base, "Content-Length", v, "Content-Disposition");
      SetHeaderValues(base, "Content-Length", v, "ETag");
    }
  }

  lemma TypedHeaderValues(hs: seq<Header>, mime: string, etag: string)
    requires Values(hs, "Content-Disposition") == [] && Values(hs, "ETag") == [etag]
    ensures Values(SetHeader(hs, "Content-Type", mime), "Content-Type") == [mime]
    ensures Values(SetHeader(hs, "Content-Type", mime), "Content-Length") == Values(hs, "Content-Length")
    ensures Values(SetHeader(hs, "Content-Type", mime), "Content-Disposition") == []
    ensures Values(SetHeader(hs, "Content-Type", mime), "ETag") == [etag]
  {
    DifferentNames("Content-Type", "ETag");
    DifferentNames("Content-Type", "Content-Length");
    DifferentNames("Content-Type", "Content-Disposition");
    SetHeaderValues(hs, "Content-Type", mime, "Content-Type");
    SetHeaderValues(hs, "Content-Type", mime, "Content-Length");
    SetHeaderValues(hs, "Content-Type", mime, "Content-Disposition");
    SetHeaderValues(hs, "Content-Type", mime, "ETag");
  }

  lemma DispositionHeaderValues(hs: seq<Header>, v: string, etag: string)
    ensures Values(SetHeader(hs, "Content-Disposition", v), "Content-Type") == Values(hs, "Content-Type")
    ensures Values(SetHeader(hs, "Content-Disposition", v), "Content-Length") == Values(hs, "Content-Length")
    ensures Values(SetHeader(hs, "Content-Disposition", v), "Content-Disposition") == [v]
    ensures Values(SetHeader(hs, "Content-Disposition", v), "ETag") == Values(hs, "ETag")
  {
    DifferentNames("Content-Disposition", "ETag");
    DifferentNames("Content-Disposition", "Content-Length");
    DifferentNames("Content-Disposition", "Content-Type");
    SetHeaderValues(hs, "Content-Disposition", v, "Content-Type");
    SetHeaderValues(hs, "Content-Disposition", v, "Content-Length");
    SetHeaderValues(hs, "Content-Disposition", v, "Content-Disposition");
    SetHeaderValues(hs, "Content-Disposition", v, "ETag");
  }

  /** A download is sent with status 200 and its content, with exactly one
      `Content-Type`, its own, the octet-stream default and the text/plain
      base both replaced; with a length exactly when the size is known; with
      its tag; and with a disposition exactly when there is a file name. */
  lemma ServedReply(c: Contents, env: Environ, clock: Clock, parsedate: string -> Option<seq<int>>)
    requires !FreshByDate(env, clock, parsedate) && !FreshByTag(env, clock)
    ensures var r := ContentReply(Ok(c), env, clock, parsedate);
      && r.status == "200 OK" && r.body == [c.data]
      && Values(r.headers, "Content-Type") == [c.mime]
      && Values(r.headers, "Content-Length") == (if c.size.Some? then [Decimal(c.size.value)] else [])
      && Values(r.headers, "ETag") == [clock.etag]
      && Values(r.headers, "Content-Disposition") == (if c.fileName != "" then [DispositionValue(c.fileName)] else [])
  {
    var r := ContentReply(Ok(c), env, clock, parsedate);
    assert r.headers == MergeAll([OctetStream], AsSpecs(DownloadHeaders(clock, c)));
    DownloadMergedValues(clock, c);
  }

  /** The header values a served download ends up with after the merge. */
  lemma DownloadMergedValues(clock: Clock, c: Contents)
    ensures var merged := MergeAll([OctetStream], AsSpecs(DownloadHeaders(clock, c)));
      && Values(merged, "Content-Type") == [c.mime]
      && Values(merged, "Content-Length") == (if c.size.Some? then [Decimal(c.size.value)] else [])
      && Values(merged, "ETag") == [clock.etag]
      && Values(merged, "Content-Disposition") == (if c.fileName != "" then [DispositionValue(c.fileName)] else [])
  {
    MergedType(clock, c);
    MergedLength(clock, c);
    MergedTag(clock, c);
    MergedDisposition(clock, c);
  }

  lemma MergedType(clock: Clock, c: Contents)
    ensures Values(MergeAll([OctetStream], AsSpecs(DownloadHeaders(clock, c))), "Content-Type") == [c.mime]
  {
    DownloadHeaderValues(clock, c);
    MergedKept(DownloadHeaders(clock, c), "Content-Type", [c.mime]);
  }

  lemma MergedLength(clock: Clock, c: Contents)
    ensures Values(MergeAll([OctetStream], AsSpecs(DownloadHeaders(clock, c))), "Content-Length")
         == if c.size.Some? then [Decimal(c.size.value)] else []
  {
    DownloadHeaderValues(clock, c);
    OctetValues("Content-Length");
    MergedKept(DownloadHeaders(clock, c), "Content-Length", if c.size.Some? then [Decimal(c.size.value)] else []);
  }

  lemma MergedTag(clock: Clock, c: Contents)
    ensures Values(MergeAll([OctetStream], AsSpecs(DownloadHeaders(clock, c))), "ETag") == [clock.etag]
  {
    DownloadHeaderValues(clock, c);
    MergedKept(DownloadHeaders(clock, c), "ETag", [clock.etag]);
  }

  lemma MergedDisposition(clock: Clock, c: Contents)
    ensures Values(MergeAll([OctetStream], AsSpecs(DownloadHeaders(clock, c))), "Content-Disposition")
         == if c.fileName != "" then [DispositionValue(c.fileName)] else []
  {
    DownloadHeaderValues(clock, c);
    OctetValues("Content-Disposition");
    MergedKept(DownloadHeaders(clock, c), "Content-Disposition",
               if c.fileName != "" then [DispositionValue(c.fileName)] else []);
  }

  /** A name with at most one value in the list keeps it through the
      merge, and keeps none when neither the list nor the default has
      one. */
  lemma MergedKept(hs: seq<Header>, m: string, vs: seq<string>)
    requires Values(hs, m) == vs && |vs| <= 1
    requires vs == [] ==> Values([OctetStream], m) == []
    ensures Values(MergeAll([OctetStream], AsSpecs(hs)), m) == vs
  {
    MergedOverOctet(hs, m);
  }

  /** The octet-stream default holds a value only under its own name. */
  lemma OctetValues(m: string)
    requires |m| != |"Content-type"|
    ensures Values([OctetStream], m) == []
  {
    DifferentNames("Content-type", m);
    assert [OctetStream][..0] == [];
  }

  /** Merging a header list over the octet-stream default leaves, for each
      name, the list's last value, or the default's when the list has
      none. */
  lemma MergedOverOctet(hs: seq<Header>, m: string)
    ensures var vs := Values(hs, m);
      Values(MergeAll([OctetStream], AsSpecs(hs)), m) == if vs == [] then Values([OctetStream], m) else [vs[|vs| - 1]]
  {
    MergeAllValues([OctetStream], AsSpecs(hs), m);
    LastSpecOfList(hs, m);
  }

  /** A request outside the served root is refused with 403. */
  lemma OutsideRootForbidden(store: Store, cwd: string, contentPath: string, env: Environ, clock: Clock,
                             guess: string -> Option<string>, archive: ArchiveRequest -> Option<string>,
                             parsedate: string -> Option<seq<int>>)
    requires IsAbs(cwd) && Target(cwd, contentPath, env).None?
    ensures Reply(store, cwd, contentPath, env, clock, guess, archive, parsedate).status == "403 Forbidden"
  {
    ForbiddenLine();
  }

  /** The status line filed under "forbidden". */
  lemma ForbiddenLine()
    ensures "forbidden" in CannedCollection && CannedCollection["forbidden"] == "403 Forbidden"
  {
  }

  /** A client whose copy carries the current tag gets 304 and no content
      for anything that can be served. */
  lemma CurrentTagNotModified(c: Contents, env: Environ, clock: Clock, parsedate: string -> Option<seq<int>>)
    requires env.ifNoneMatch == Some(clock.etag) && clock.etag != ""
    ensures ContentReply(Ok(c), env, clock, parsedate).status == "304 Not Modified"
    ensures ContentReply(Ok(c), env, clock, parsedate).body == [""]
  {
    SameTagIsFresh(env, clock);
  }

  /** A client sending back the current `Last-Modified` gets 304 and no
      content for anything that can be served. */
  lemma CurrentDateNotModified(c: Contents, env: Environ, clock: Clock, parsedate: string -> Option<seq<int>>)
    requires env.ifModifiedSince == Some(clock.lastModified) && clock.lastModified != ""
    ensures ContentReply(Ok(c), env, clock, parsedate).status == "304 Not Modified"
  {
    SameDateIsFresh(env, clock, parsedate);
  }

  /** `FuzzyPathHandler(content_path=...)(environ, start_response)`: `cwd`
      stands for the working directory, `clock` for the time stamps,
      `guess` for `mimetypes.guess_type`, `archive` for `git archive` and
      `parsedate` for `email.utils.parsedate`. */
  method Call(store: Store, cwd: string, contentPath: string, env: Environ, clock: Clock,
              guess: string -> Option<string>, archive: ArchiveRequest -> Option<string>,
              parsedate: string -> Option<seq<int>>)
    returns (r: Response)
    requires IsAbs(cwd)
    ensures r == Reply(store, cwd, contentPath, env, clock, guess, archive, parsedate)
  {
    var pathInfo := RequestPath(env);
    var fullPath := AbsPath(cwd, PathJoin(contentPath, Strip(pathInfo, Slashes)));
    var root := AbsPath(cwd, contentPath);
    if !StartsWith(fullPath, root) {
      var canned := CannedHandlers("forbidden", []);
      return canned.value;
    }
    var p := Strip(fullPath[|root|..], Slashes);
    var contents := GetPathContents(store, root, p, guess, archive);
    r := Respond(contents, env, clock, parsedate);
  }

  /** The part of `__call__` after the lookup: the header list is edited
      in place and handed to `canned_handlers` or `package_response`. */
  method Respond(contents: Result<Contents>, env: Environ, clock: Clock, parsedate: string -> Option<seq<int>>)
    returns (r: Response)
    ensures r == ContentReply(contents, env, clock, parsedate)
  {
    if contents.Err? {
      var canned := CannedHandlers("404", []);
      return canned.value;
    }
    var c := contents.value;
    var headers := new HeaderList(BaseHeaders(clock));
    if FreshByDate(env, clock, parsedate) {
      var canned := CannedHandlers("not_modified", AsSpecs(headers.items));
      return canned.value;
    }
    if FreshByTag(env, clock) {
      var canned := CannedHandlers("not_modified", AsSpecs(headers.items));
      return canned.value;
    }
    if c.size.Some? {
      headers.Set("Content-Length", Decimal(c.size.value));
    }
    headers.Set("Content-Type", c.mime);
    if c.fileName != "" {
      var disposition := ContentDispositionFor(c.fileName);
      headers.Set("Content-Disposition", disposition);
    }
    r := PackageMerged(c.data, AsSpecs(headers.items));
  }
}
