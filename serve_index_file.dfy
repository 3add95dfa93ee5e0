/** `serve_index_file.py`: the application that serves the one page
    `index.html`. The page, its tag and its date are read once, when the
    application is built; each request gets them with a fresh `Date`
    header, or a 304 when the client's copy is current. */
module ServeIndexFile {
  import opened Wrappers
  import opened PyText
  import opened PosixPath
  import opened WsgiCommon
  import opened FuzzyPathHandler

  /** The headers stored at construction, in order. */
  function IndexHeaders(lastModified: string, etag: string): (r: seq<Header>)
    ensures |r| == 3
  {
    [Header("Content-type", "text/html"), Header("Last-Modified", lastModified), Header("ETag", etag)]
  }

  /** What `__call__` answers, given the stored headers and page and the
      request's cache headers: 304 with the request's headers merged over
      the canned text/plain base when the client's copy is current by date
      or by tag, otherwise 200 with the stored headers, then `Date`, and the
      page. */
  function IndexReply(stored: seq<Header>, page: string, clock: Clock, env: Environ,
                      parsedate: string -> Option<seq<int>>): (r: Response)
    ensures r.status == "304 Not Modified" || r.status == "200 OK"
  {
    var h := stored + [Header("Date", clock.date)];
    NotModifiedLine();
    if FreshByDate(env, clock, parsedate) || FreshByTag(env, clock) then Canned("not_modified", AsSpecs(h))
    else Response("200 OK", h, [page])
  }

  /** The status line filed under "not_modified". */
  lemma NotModifiedLine()
    ensures "not_modified" in CannedCollection && CannedCollection["not_modified"] == "304 Not Modified"
  {
  }

  /** `ServeIndexFile`: what `__init__` stores. */
  class IndexFile {
    var filename: string
    var fileContents: string
    var etag: string
    var lastModified: string
    var headers: seq<Header>

    /** The stored headers carry the stored date and tag. */
    predicate Valid()
      reads this
    {
      headers == IndexHeaders(lastModified, etag)
    }

    /** `__init__` once the page has been read: `contents` and `mtime`
        stand for what `open(...).read()` and `os.stat(...).st_mtime`
        give, `show` for `str` and `formatdate` for
        `email.utils.formatdate`. The tag and the date are computed here
        and never again. */
    constructor (staticContentPath: string, contents: string, mtime: real,
                 show: real -> string, formatdate: real -> string)
      ensures filename == PathJoin(staticContentPath, "index.html")
      ensures fileContents == contents
      ensures etag == show(mtime) && lastModified == formatdate(mtime)
      ensures Valid()
    {
      filename := PathJoin(staticContentPath, "index.html");
      fileContents := contents;
      etag, lastModified := show(mtime), formatdate(mtime);
      headers := [
        Header("Content-type", "text/html"),
        Header("Last-Modified", lastModified),
        Header("ETag", etag)];
    }

    /** `__call__(environ, start_response)`: `date` stands for
        `formatdate(time.time())` and `parsedate` for
        `email.utils.parsedate`. The stored list is copied before `Date`
        is appended, so the object is left as it was: the method modifies
        nothing. */
    method Call(env: Environ, date: string, parsedate: string -> Option<seq<int>>) returns (r: Response)
      ensures r == IndexReply(headers, fileContents, Clock(etag, lastModified, date), env, parsedate)
    {
      var h := headers[..];
      h := h + [Header("Date", date)];
      var ifModified := env.ifModifiedSince;
      if ifModified.Some? && ifModified.value != "" && ParsedGe(parsedate(ifModified.value), parsedate(lastModified)) {
        var canned := CannedHandlers("not_modified", AsSpecs(h));
        return canned.value;
      }
      var ifNone := env.ifNoneMatch;
      if ifNone.Some? && ifNone.value != "" && (ifNone.value == "*" || Contains(ifNone.value, etag)) {
        var canned := CannedHandlers("not_modified", AsSpecs(h));
        return canned.value;
      }
      r := Response("200 OK", h, [fileContents]);
    }
  }

  /** `ServeIndexFile(static_content_path=...)`: `files` maps each readable
      path to its contents and modification time. A missing page raises
      IOError. */
  method Open(staticContentPath: string, files: map<string, (string, real)>,
              show: real -> string, formatdate: real -> string)
    returns (r: Result<IndexFile>)
    ensures r.Err? <==> PathJoin(staticContentPath, "index.html") !in files
    ensures r.Err? ==> r.error == IOError
    ensures r.Ok? ==> fresh(r.value) && r.value.Valid()
    ensures r.Ok? ==> var (page, mtime) := files[PathJoin(staticContentPath, "index.html")];
      r.value.fileContents == page && r.value.etag == show(mtime) && r.value.lastModified == formatdate(mtime)
  {
    var filename := PathJoin(staticContentPath, "index.html");
    if filename !in files {
      return Err(IOError);
    }
    var (page, mtime) := files[filename];
    var app := new IndexFile(staticContentPath, page, mtime, show, formatdate);
    r := Ok(app);
  }

  /** A request that is current neither by date nor by tag gets 200, the
      stored headers in order with `Date` last, and the page read at
      construction. */
  lemma ServedPage(stored: seq<Header>, page: string, clock: Clock, env: Environ,
                   parsedate: string -> Option<seq<int>>)
    requires !FreshByDate(env, clock, parsedate) && !FreshByTag(env, clock)
    ensures var r := IndexReply(stored, page, clock, env, parsedate);
      r.status == "200 OK" && r.body == [page] &&
      r.headers[..|stored|] == stored && r.headers[|stored|..] == [Header("Date", clock.date)]
  {
  }

  /** `If-None-Match: *` always gets 304 and an empty body. */
  lemma AnyTagNotModified(stored: seq<Header>, page: string, clock: Clock, env: Environ,
                          parsedate: string -> Option<seq<int>>)
    requires env.ifNoneMatch == Some("*")
    ensures var r := IndexReply(stored, page, clock, env, parsedate);
      r.status == "304 Not Modified" && r.body == [""]
  {
  }

  /** A client sending back the current tag gets 304 and an empty body. */
  lemma CurrentTagNotModified(stored: seq<Header>, page: string, clock: Clock, env: Environ,
                              parsedate: string -> Option<seq<int>>)
    requires env.ifNoneMatch == Some(clock.etag) && clock.etag != ""
    ensures var r := IndexReply(stored, page, clock, env, parsedate);
      r.status == "304 Not Modified" && r.body == [""]
  {
    SameTagIsFresh(env, clock);
  }

  /** A client sending back the current `Last-Modified` gets 304. */
  lemma CurrentDateNotModified(stored: seq<Header>, page: string, clock: Clock, env: Environ,
                               parsedate: string -> Option<seq<int>>)
    requires env.ifModifiedSince == Some(clock.lastModified) && clock.lastModified != ""
    ensures IndexReply(stored, page, clock, env, parsedate).status == "304 Not Modified"
  {
    SameDateIsFresh(env, clock, parsedate);
  }

  /** Merging a header list over the text/plain base leaves, for each
      name, the list's last value, or the base's when the list has none. */
  lemma MergedOverPlain(hs: seq<Header>, m: string)
    ensures var vs := Values(hs, m);
      Values(MergeAll([TextPlain], AsSpecs(hs)), m) == if vs == [] then Values([TextPlain], m) else [vs[|vs| - 1]]
  {
    MergeAllValues([TextPlain], AsSpecs(hs), m);
    LastSpecOfList(hs, m);
  }

  /** The values a single header holds under a name. */
  function One(x: Header, m: string): seq<string> {
    if SameName(x.name, m) then [x.value] else []
  }

  /** A list of four headers holds, under a name, the values each of them
      holds, in order. */
  lemma ValuesOfFour(a: Header, b: Header, c: Header, d: Header, m: string)
    ensures Values([a, b, c, d], m) == One(a, m) + One(b, m) + One(c, m) + One(d, m)
  {
    assert [a, b, c, d][..3] == [a, b, c];
    assert [a, b, c][..2] == [a, b];
    assert [a, b][..1] == [a];
    assert [a][..0] == [];
    assert Values([a], m) == One(a, m);
    assert Values([a, b], m) == One(a, m) + One(b, m);
    assert Values([a, b, c], m) == One(a, m) + One(b, m) + One(c, m);
  }

  /** The request's headers, as `__call__` builds them from the stored
      ones, hold one value for the type, the tag and the date. */
  lemma RequestHeaderValues(clock: Clock)
    ensures var h := IndexHeaders(clock.lastModified, clock.etag) + [Header("Date", clock.date)];
      && Values(h, "Content-Type") == ["text/html"]
      && Values(h, "ETag") == [clock.etag]
      && Values(h, "Date") == [clock.date]
  {
    var a, b, c, d := Header("Content-type", "text/html"), Header("Last-Modified", clock.lastModified),
      Header("ETag", clock.etag), Header("Date", clock.date);
    assert IndexHeaders(clock.lastModified, clock.etag) + [d] == [a, b, c, d];
    assert SameName("Content-type", "Content-Type") by {
      assert Lower("Content-type") == "content-type";
      assert Lower("Content-Type") == "content-type";
    }
    SameNameItself("ETag");
    SameNameItself("Date");
    DifferentNames("Last-Modified", "Content-Type");
    DifferentNames("ETag", "Content-Type");
    DifferentNames("Date", "Content-Type");
    DifferentNames("Content-type", "ETag");
    DifferentNames("Last-Modified", "ETag");
    assert !SameName("Date", "ETag") by {
      assert Lower("Date")[0] == 'd';
      assert Lower("ETag")[0] == 'e';
    }
    DifferentNames("Content-type", "Date");
    DifferentNames("Last-Modified", "Date");
    ValuesOfFour(a, b, c, d, "Content-Type");
    ValuesOfFour(a, b, c, d, "ETag");
    ValuesOfFour(a, b, c, d, "Date");
  }

  /** Every name matches itself. */
  lemma SameNameItself(n: string)
    ensures SameName(n, n)
  {
  }

  /** A 304 for a valid object still says text/html: the stored
      `Content-type` replaces the canned text/plain, and the tag and date
      go with it. */
  lemma NotModifiedHeaders(stored: seq<Header>, page: string, clock: Clock, env: Environ,
                           parsedate: string -> Option<seq<int>>)
    requires stored == IndexHeaders(clock.lastModified, clock.etag)
    requires FreshByDate(env, clock, parsedate) || FreshByTag(env, clock)
    ensures var r := IndexReply(stored, page, clock, env, parsedate);
      && Values(r.headers, "Content-Type") == ["text/html"]
      && Values(r.headers, "ETag") == [clock.etag]
      && Values(r.headers, "Date") == [clock.date]
  {
    var h := stored + [Header("Date", clock.date)];
    RequestHeaderValues(clock);
    MergedOverPlain(h, "Content-Type");
    MergedOverPlain(h, "ETag");
    MergedOverPlain(h, "Date");
  }
}
