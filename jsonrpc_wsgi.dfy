/** `jsonrpc_wsgi_application/jsonrpc_wsgi_application.py`: the second copy
    of the router, whose registry is created by the first `add_method` and
    whose `process_request` also takes a readable object, and the WSGI
    application that answers POST requests with the encoded reply. */
module JsonRpcWsgi {
  import opened Wrappers
  import opened PyText
  import opened Json
  import opened WsgiCommon
  import opened JsonRpcRouter

  /** What `process_request` is handed: text, or an object with `read()`
      whose whole content is read at once. */
  datatype Body = Text(s: string) | Stream(content: string)

  /** `if hasattr(json_string, 'read'): json_string = json_string.read()`;
      a missing `wsgi.input` stays None. */
  function ReadBody(b: Option<Body>): (r: Option<string>)
    ensures r.None? <==> b.None?
    ensures b.Some? && b.value.Stream? ==> r == Some(b.value.content)
    ensures b.Some? && b.value.Text? ==> r == Some(b.value.s)
  {
    match b
    case None => None
    case Some(Text(s)) => Some(s)
    case Some(Stream(c)) => Some(c)
  }

  /** A stream is answered exactly as its content given as text would be. */
  lemma StreamReadFully<H>(table: Option<Table<H>>, content: string,
                           parse: string -> Option<Json>, call: (H, seq<Json>) -> CallOutcome)
    ensures Respond(table, ReadBody(Some(Stream(content))), parse, call) ==
            Respond(table, ReadBody(Some(Text(content))), parse, call)
  {
  }

  /** What the WSGI application does with one request: it calls
      `start_response` and returns a body, or an exception escapes. */
  datatype AppOutcome = Served(response: Response) | Failed(error: PyError)

  /** The headers `__call__` hands to `package_response`, `length` being
      `str(len(stdout))`. */
  function ReplyHeaders(length: string): seq<HeaderSpec> {
    [HeaderSpec("Pragma", ["no-cache"]),
     HeaderSpec("Cache-Control", ["no-cache"]),
     HeaderSpec("Content-Type", ["application/json"]),
     HeaderSpec("Content-Length", [length])]
  }

  /** The header list of a POST reply: the caller's Content-Type replaces the
      default `application/octet-stream`, and the length is the reply's. */
  lemma PostReplyHeaders(length: string)
    ensures MergeAll([OctetStream], ReplyHeaders(length)) ==
      [Header("Pragma", "no-cache"), Header("Cache-Control", "no-cache"),
       Header("Content-Type", "application/json"), Header("Content-Length", length)]
  {
    var pragma := HeaderSpec("Pragma", ["no-cache"]);
    var cache := HeaderSpec("Cache-Control", ["no-cache"]);
    var ctype := HeaderSpec("Content-Type", ["application/json"]);
    var clen := HeaderSpec("Content-Length", [length]);
    var p := Header("Pragma", "no-cache");
    var c := Header("Cache-Control", "no-cache");
    var j := Header("Content-Type", "application/json");
    assert SpecValue(ctype) == "application/json" && SpecValue(clen) == length;
    calc {
      MergeAll([OctetStream], [pragma, cache, ctype]);
      { assert [pragma, cache, ctype] == [pragma, cache] + [ctype];
        MergeAllSnoc([OctetStream], [pragma, cache], ctype); }
      SetHeader(MergeAll([OctetStream], [pragma, cache]), "Content-Type", "application/json");
      { NoCacheMerged(); }
      SetHeader([OctetStream, p, c], "Content-Type", "application/json");
      { ContentTypeReplacesDefault(p, c); }
      [p, c, j];
    }
    calc {
      MergeAll([OctetStream], ReplyHeaders(length));
      { assert ReplyHeaders(length) == [pragma, cache, ctype] + [clen];
        MergeAllSnoc([OctetStream], [pragma, cache, ctype], clen); }
      SetHeader([p, c, j], "Content-Length", length);
      { SetFreshName([p, c, j], "Content-Length", length); }
      [p, c, j, Header("Content-Length", length)];
    }
  }

  /** The two no-cache headers are appended after the default one. */
  lemma NoCacheMerged()
    ensures MergeAll([OctetStream], [HeaderSpec("Pragma", ["no-cache"]), HeaderSpec("Cache-Control", ["no-cache"])]) ==
      [OctetStream, Header("Pragma", "no-cache"), Header("Cache-Control", "no-cache")]
  {
    var pragma := HeaderSpec("Pragma", ["no-cache"]);
    var cache := HeaderSpec("Cache-Control", ["no-cache"]);
    var p := Header("Pragma", "no-cache");
    assert SpecValue(pragma) == "no-cache" && SpecValue(cache) == "no-cache";
    calc {
      MergeAll([OctetStream], [pragma]);
      { assert [pragma] == [] + [pragma]; MergeAllSnoc([OctetStream], [], pragma); }
      SetHeader([OctetStream], "Pragma", "no-cache");
      { SetFreshName([OctetStream], "Pragma", "no-cache"); }
      [OctetStream, p];
    }
    calc {
      MergeAll([OctetStream], [pragma, cache]);
      { assert [pragma, cache] == [pragma] + [cache]; MergeAllSnoc([OctetStream], [pragma], cache); }
      SetHeader([OctetStream, p], "Cache-Control", "no-cache");
      { SetFreshName([OctetStream, p], "Cache-Control", "no-cache"); }
      [OctetStream, p, Header("Cache-Control", "no-cache")];
    }
  }

  lemma ContentTypeReplacesDefault(p: Header, c: Header)
    requires p == Header("Pragma", "no-cache") && c == Header("Cache-Control", "no-cache")
    ensures SetHeader([OctetStream, p, c], "Content-Type", "application/json") ==
      [p, c, Header("Content-Type", "application/json")]
  {
    assert SameName("Content-type", "Content-Type") by {
      assert forall i :: 0 <= i < 12 ==> LowerChar("Content-type"[i]) == LowerChar("Content-Type"[i]);
    }
    var hs := [OctetStream, p, c];
    assert hs[..2][..1] == [OctetStream];
    assert WithoutName([OctetStream], "Content-Type") == [];
    assert WithoutName(hs[..2], "Content-Type") == [p];
    assert WithoutName(hs, "Content-Type") == [p, c];
  }

  /** `WSGIJSONRPCApplication`: its registry does not exist (None) until the
      first `add_method`. */
  class WsgiApp<H> {
    var methods: Option<Table<H>>

    constructor ()
      ensures methods == None
    {
      methods := None;
    }

    /** `add_method`: the registry is created first,
        so it exists afterwards even when the checks raise ValueError. */
    method AddMethod(path: Path, m: Option<H>) returns (err: Option<PyError>)
      modifies this
      ensures var t := old(methods).GetOr(map[]);
        match AddMethodSpec(t, path, m)
        case Ok(t') => err == None && methods == Some(t')
        case Err(e) => err == Some(e) && methods == Some(t)
    {
      if methods.None? {
        methods := Some(map[]);
      }
      if IsEmptyPath(path) || m.None? {
        return Some(ValueError);
      }
      var secs := PathSections(path);
      var inserted := Insert(methods.value, secs[..|secs| - 1], secs[|secs| - 1], m.value);
      if inserted.None? {
        return Some(TypeError);
      }
      methods := inserted;
      return None;
    }

    /** `process_request(json_string)`: a readable input is read in full
        first; with no registry yet, finding a method raises
        AttributeError. */
    method ProcessRequest(input: Option<Body>, parse: string -> Option<Json>,
                          call: (H, seq<Json>) -> CallOutcome) returns (r: Outcome)
      ensures r == Respond(methods, ReadBody(input), parse, call)
    {
      var text := None;
      if input.Some? {
        match input.value
        case Text(s) => text := Some(s);
        case Stream(c) => text := Some(c);
      }
      r := Process(methods, text, parse, call);
    }

    /** `__call__(environ, start_response)`: anything but POST gets the
        canned 405 reply without the input being looked at; a POST is
        answered with the encoded reply (`dumps` is `json.dumps`) and its
        headers. */
    method Call(requestMethod: Option<string>, input: Option<Body>,
                parse: string -> Option<Json>, call: (H, seq<Json>) -> CallOutcome,
                dumps: Json -> string) returns (r: AppOutcome)
      ensures requestMethod.GetOr("") != "POST" ==>
        r == Served(Response("405 Method Not Allowed", [TextPlain], [""]))
      ensures requestMethod.GetOr("") == "POST" ==>
        match Respond(methods, ReadBody(input), parse, call)
        case Escaped(e) => r == Failed(e)
        case Replied(v) => r == Served(Response("200 OK",
          [Header("Pragma", "no-cache"), Header("Cache-Control", "no-cache"),
           Header("Content-Type", "application/json"), Header("Content-Length", Decimal(|dumps(v)|))],
          [dumps(v)]))
    {
      if requestMethod.GetOr("") != "POST" {
        var canned := CannedHandlers("method_not_allowed", []);
        return Served(canned.value);
      }
      var outcome := ProcessRequest(input, parse, call);
      match outcome
      case Escaped(e) =>
        r := Failed(e);
      case Replied(v) =>
        var stdout := dumps(v);
        var response := PackageMerged(stdout, ReplyHeaders(Decimal(|stdout|)));
        PostReplyHeaders(Decimal(|stdout|));
        r := Served(response);
    }
  }
}
