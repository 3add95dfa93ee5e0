/** The JSON-RPC 1.0 request router of `jsonrpc/jsonrpc_handler_router.py`:
    a registry of handlers kept as a tree of nested dictionaries keyed by the
    sections of dotted method names, and the mapping from one request text to
    one reply envelope, with the error objects of section 5.1 of the
    JSON-RPC 2.0 specification. */
module JsonRpcRouter {
  import opened Wrappers
  import opened PyText
  import opened Json

  /** A value of the registry: a handler, or a nested dictionary (a
      namespace). */
  datatype Entry<H> = Handler(h: H) | Namespace(children: map<string, Entry<H>>)

  type Table<H> = map<string, Entry<H>>

  /** The `path` argument of `add_method`: a dotted string, or a list or
      tuple of strings that may themselves hold dots. */
  datatype Path = Dotted(s: string) | Sections(parts: seq<string>)

  /** `not path`. */
  predicate IsEmptyPath(p: Path) {
    match p
    case Dotted(s) => s == []
    case Sections(parts) => parts == []
  }

  /** `'.'.join(path).split('.')` for a list, `path.split('.')` for a string. */
  function PathSections(p: Path): (r: seq<string>)
    ensures |r| >= 1
    ensures forall i :: 0 <= i < |r| ==> '.' !in r[i]
  {
    var r := match p
      case Dotted(s) => Split(s, '.')
      case Sections(parts) => Split(Join(parts, "."), '.');
    SplitPartsFree(if p.Dotted? then p.s else Join(p.parts, "."), '.');
    r
  }

  /** The registry after storing `h` under `name` below the sections `secs`:
      a missing section becomes a new namespace, an existing namespace is
      entered, and a section that already holds a handler makes the item
      assignment fail (None, a TypeError). */
  function Insert<H>(t: Table<H>, secs: seq<string>, name: string, h: H): Option<Table<H>>
    decreases |secs|
  {
    if secs == [] then Some(t[name := Handler(h)])
    else if secs[0] == [] then Insert(t, secs[1..], name, h)
    else if secs[0] in t && t[secs[0]].Handler? then None
    else
      var inner := if secs[0] in t then t[secs[0]].children else map[];
      match Insert(inner, secs[1..], name, h)
      case None => None
      case Some(c) => Some(t[secs[0] := Namespace(c)])
  }

  /** What looking up a sequence of sections gives: the entry reached, a
      KeyError on a missing key, or a TypeError from indexing a handler. */
  datatype Found<H> = Found(e: Entry<H>) | NotFound | WalkedIntoHandler

  /** `for section in secs: _o = _o[section]`, starting from `e`. */
  function Walk<H>(e: Entry<H>, secs: seq<string>): Found<H>
    decreases |secs|
  {
    if secs == [] then Found(e)
    else match e
      case Handler(_) => WalkedIntoHandler
      case Namespace(c) => if secs[0] in c then Walk(c[secs[0]], secs[1..]) else NotFound
  }

  /** The sections `q` lead to a handler in `t`. */
  predicate HandlerAt<H>(t: Table<H>, q: seq<string>) {
    Walk(Namespace(t), q).Found? && Walk(Namespace(t), q).e.Handler?
  }

  predicate IsPrefix<T(==)>(p: seq<T>, q: seq<T>) {
    |p| <= |q| && q[..|p|] == p
  }

  /** `add_method` on the registry `t`: a ValueError for
      an empty path or a falsy (None) method, a TypeError when a section on
      the way holds a handler, and otherwise the updated registry. */
  function AddMethodSpec<H>(t: Table<H>, path: Path, m: Option<H>): Result<Table<H>> {
    if IsEmptyPath(path) || m.None? then Err(ValueError)
    else
      var secs := PathSections(path);
      match Insert(t, secs[..|secs| - 1], secs[|secs| - 1], m.value)
      case None => Err(TypeError)
      case Some(t') => Ok(t')
  }

  lemma WalkCons<H>(t: Table<H>, s: string, q: seq<string>)
    ensures Walk(Namespace(t), [s] + q) == if s in t then Walk(t[s], q) else NotFound
  {
    assert ([s] + q)[0] == s && ([s] + q)[1..] == q;
  }

  /** After a successful insertion, walking the non-empty sections and then
      the name reaches the new handler. */
  lemma {:induction false} InsertThenWalk<H>(t: Table<H>, secs: seq<string>, name: string, h: H)
    requires Insert(t, secs, name, h).Some?
    ensures Walk(Namespace(Insert(t, secs, name, h).value), NonEmpty(secs) + [name]) == Found(Handler(h))
    decreases |secs|
  {
    if secs == [] {
      WalkCons(Insert(t, secs, name, h).value, name, []);
    } else if secs[0] == [] {
      InsertThenWalk(t, secs[1..], name, h);
    } else {
      var inner := if secs[0] in t then t[secs[0]].children else map[];
      InsertThenWalk(inner, secs[1..], name, h);
      assert NonEmpty(secs) + [name] == [secs[0]] + (NonEmpty(secs[1..]) + [name]);
      WalkCons(Insert(t, secs, name, h).value, secs[0], NonEmpty(secs[1..]) + [name]);
    }
  }

  /** Some non-empty prefix of `q` leads to a handler in `t`. */
  predicate SomePrefixHandler<H>(t: Table<H>, q: seq<string>) {
    exists k :: 1 <= k <= |q| && HandlerAt(t, q[..k])
  }

  /** Insertion fails exactly when some prefix of the non-empty sections
      already leads to a handler. */
  lemma {:induction false} InsertFailsIff<H>(t: Table<H>, secs: seq<string>, name: string, h: H)
    ensures Insert(t, secs, name, h).None? <==> SomePrefixHandler(t, NonEmpty(secs))
    decreases |secs|
  {
    var ss := NonEmpty(secs);
    if secs == [] {
      assert ss == [];
    } else if secs[0] == [] {
      assert ss == NonEmpty(secs[1..]);
      assert Insert(t, secs, name, h) == Insert(t, secs[1..], name, h);
      InsertFailsIff(t, secs[1..], name, h);
    } else {
      var s0 := secs[0];
      var rest := NonEmpty(secs[1..]);
      assert ss == [s0] + rest;
      if s0 in t && t[s0].Handler? {
        assert Insert(t, secs, name, h).None?;
        WalkCons(t, s0, []);
        assert 1 <= |ss| && ss[..1] == [s0] + [];
        assert HandlerAt(t, ss[..1]);
      } else {
        var inner := if s0 in t then t[s0].children else map[];
        assert Insert(t, secs, name, h).None? <==> Insert(inner, secs[1..], name, h).None?;
        InsertFailsIff(inner, secs[1..], name, h);
        if exists j :: 1 <= j <= |rest| && HandlerAt(inner, rest[..j]) {
          var j :| 1 <= j <= |rest| && HandlerAt(inner, rest[..j]);
          PrefixStep(t, s0, rest, j + 1);
          assert HandlerAt(t, ss[..j + 1]);
        }
        if exists k :: 1 <= k <= |ss| && HandlerAt(t, ss[..k]) {
          var k :| 1 <= k <= |ss| && HandlerAt(t, ss[..k]);
          PrefixStep(t, s0, rest, k);
          assert HandlerAt(inner, rest[..k - 1]);
        }
      }
    }
  }

  /** Below a section that holds no handler, a prefix of the sections
      leads to a handler exactly when the same prefix, without that
      section, does inside it (a missing section holding nothing). */
  lemma PrefixStep<H>(t: Table<H>, s0: string, rest: seq<string>, k: nat)
    requires 1 <= k <= |rest| + 1
    requires !(s0 in t && t[s0].Handler?)
    ensures HandlerAt(t, ([s0] + rest)[..k]) <==>
      k > 1 && HandlerAt(if s0 in t then t[s0].children else map[], rest[..k - 1])
  {
    assert ([s0] + rest)[..k] == [s0] + rest[..k - 1];
    WalkCons(t, s0, rest[..k - 1]);
    if s0 !in t && k > 1 {
      var empty: Table<H> := map[];
      assert rest[..k - 1] == [rest[0]] + rest[1..k - 1];
      WalkCons(empty, rest[0], rest[1..k - 1]);
    }
  }

  /** A successful insertion keeps every handler reached by a path that does
      not run through the newly stored name. */
  lemma {:induction false} InsertKeepsOthers<H>(t: Table<H>, secs: seq<string>, name: string, h: H,
                                                q: seq<string>, g: H)
    requires Insert(t, secs, name, h).Some?
    requires Walk(Namespace(t), q) == Found(Handler(g))
    requires !IsPrefix(NonEmpty(secs) + [name], q)
    ensures Walk(Namespace(Insert(t, secs, name, h).value), q) == Found(Handler(g))
    decreases |secs|
  {
    var t' := Insert(t, secs, name, h).value;
    assert q != [];
    assert q == [q[0]] + q[1..];
    WalkCons(t, q[0], q[1..]);
    WalkCons(t', q[0], q[1..]);
    if secs == [] {
      assert q[..1] == [name] ==> IsPrefix(NonEmpty(secs) + [name], q);
    } else if secs[0] == [] {
      InsertKeepsOthers(t, secs[1..], name, h, q, g);
    } else if q[0] != secs[0] {
    } else {
      var c := t[secs[0]].children;
      var p := NonEmpty(secs[1..]) + [name];
      assert NonEmpty(secs) + [name] == [secs[0]] + p;
      InsertKeepsOthers(c, secs[1..], name, h, q[1..], g);
    }
  }

  /** The items of `parts`, each split at `c`, one after the other. */
  function SplitEach(parts: seq<string>, c: char): seq<string>
    decreases |parts|
  {
    if parts == [] then [] else Split(parts[0], c) + SplitEach(parts[1..], c)
  }

  /** A list path names the sections of its items split at their dots,
      in order, as the dotted string of its items does:
      `['asdf.qwer', 'zxcv', 'method']` and `'asdf.qwer.zxcv.method'` are
      the same path. */
  lemma {:induction false} ListPathSplitsItems(parts: seq<string>)
    requires |parts| >= 1
    ensures PathSections(Sections(parts)) == SplitEach(parts, '.')
    ensures PathSections(Sections(parts)) == PathSections(Dotted(Join(parts, ".")))
    decreases |parts|
  {
    if |parts| > 1 {
      ListPathSplitsItems(parts[1..]);
      assert Join(parts, ".") == parts[0] + ['.'] + Join(parts[1..], ".");
      SplitAppend(parts[0], Join(parts[1..], "."), '.');
    }
  }

  /** A list path whose items hold no dots names its items as sections;
      joining with dots and splitting again changes nothing. */
  lemma ListPathSections(parts: seq<string>)
    requires |parts| >= 1
    requires forall k :: 0 <= k < |parts| ==> '.' !in parts[k]
    ensures PathSections(Sections(parts)) == parts
  {
    SplitJoin(parts, '.');
  }

  /** After `add_method(p, m)` succeeds on a dotted name whose sections are
      all non-empty, looking that name up finds `m`. */
  lemma AddThenFind<H>(t: Table<H>, p: string, m: H)
    requires AddMethodSpec(t, Dotted(p), Some(m)).Ok?
    requires forall k :: 0 <= k < |Split(p, '.')| - 1 ==> Split(p, '.')[k] != []
    ensures Walk(Namespace(AddMethodSpec(t, Dotted(p), Some(m)).value), Split(p, '.')) == Found(Handler(m))
  {
    var secs := Split(p, '.');
    var prefix := secs[..|secs| - 1];
    InsertThenWalk(t, prefix, secs[|secs| - 1], m);
    assert NonEmpty(prefix) == prefix;
    assert prefix + [secs[|secs| - 1]] == secs;
  }

  /** `_find_method(method_name)` over the registry `methods`. */
  method FindMethod<H>(methods: Table<H>, methodName: string) returns (r: Found<H>)
    ensures r == Walk(Namespace(methods), Split(methodName, '.'))
  {
    var secs := Split(methodName, '.');
    var o := Namespace(methods);
    var i := 0;
    while i < |secs|
      invariant 0 <= i <= |secs|
      invariant Walk(Namespace(methods), secs) == Walk(o, secs[i..])
    {
      assert secs[i..][0] == secs[i] && secs[i..][1..] == secs[i + 1..];
      match o
      case Handler(_) =>
        return WalkedIntoHandler;
      case Namespace(c) =>
        if secs[i] !in c {
          return NotFound;
        }
        o := c[secs[i]];
      i := i + 1;
    }
    return Found(o);
  }

  /** What calling a handler with the request's params gives: a result that
      `json.dumps` can encode, one it cannot, or a raised exception. */
  datatype CallOutcome = Returned(v: Json) | ReturnedUnencodable | Raised

  /** The outcome of `process_request`: the reply envelope (the value that is
      then encoded as text), or an exception the method lets escape. */
  datatype Outcome = Replied(reply: Json) | Escaped(error: PyError)

  const ParseErrorCode := -32700
  const InvalidRequestCode := -32600
  const MethodNotFoundCode := -32601
  const InternalErrorCode := -32603

  /** The error reply `{"id": id, "result": None, "error": {...}}`. */
  function ErrorReply(id: Json, code: int, message: string, data: Json): Json {
    Obj(map["id" := id, "result" := Null,
            "error" := Obj(map["code" := Num(code), "message" := Str(message), "data" := data])])
  }

  /** The success reply `{"error": None, "id": id, "result": result}`. */
  function SuccessReply(id: Json, result: Json): Json {
    Obj(map["error" := Null, "id" := id, "result" := result])
  }

  /** `e.data or json_string`: every error object's own data is `''`, so the
      raw request text (None when there was none) stands in for it. */
  function RequestData(request: Option<string>): Json {
    match request
    case Some(s) => Str(s)
    case None => Null
  }

  /** An envelope with exactly the keys `id`, `result` and `error`. */
  predicate IsEnvelope(v: Json) {
    v.Obj? && v.fields.Keys == {"id", "result", "error"}
  }

  /** The error object of an envelope, with the four codes of section 5.1 of
      the JSON-RPC 2.0 specification and their messages. */
  predicate IsErrorObject(e: Json, data: Json) {
    && e.Obj? && e.fields.Keys == {"code", "message", "data"}
    && e.fields["data"] == data
    && (|| (e.fields["code"] == Num(ParseErrorCode) && e.fields["message"] == Str("Parse error"))
        || (e.fields["code"] == Num(InvalidRequestCode) && e.fields["message"] == Str("Invalid request"))
        || (e.fields["code"] == Num(MethodNotFoundCode) && e.fields["message"] == Str("Method not found"))
        || (e.fields["code"] == Num(InternalErrorCode) && e.fields["message"] == Str("Internal error")))
  }

  /** `process_request(json_string)` against the registry `table` (None when
      the registry was never created), with `json.loads` as `parse` and the
      handlers' behaviour as `call`. */
  function Respond<H>(table: Option<Table<H>>, request: Option<string>,
                      parse: string -> Option<Json>,
                      call: (H, seq<Json>) -> CallOutcome): (r: Outcome)
    ensures r.Replied? ==> IsEnvelope(r.reply)
    ensures r.Replied? && r.reply.fields["error"] != Null ==>
      r.reply.fields["result"] == Null && IsErrorObject(r.reply.fields["error"], RequestData(request))
    ensures r.Escaped? ==> r.error == AttributeError || r.error == TypeError
  {
    var data := RequestData(request);
    var parsed := if request.Some? then parse(request.value) else None;
    if parsed.None? then Replied(ErrorReply(Null, ParseErrorCode, "Parse error", data))
    else
      var req := parsed.value;
      if Field(req, "id").None? then Replied(ErrorReply(Null, InvalidRequestCode, "Invalid request", data))
      else
        var id := req.fields["id"];
        if Field(req, "method").None? || Field(req, "params").None? || !req.fields["params"].Arr? then
          Replied(ErrorReply(id, InvalidRequestCode, "Invalid request", data))
        else
          var meth := req.fields["method"];
          var params := req.fields["params"].items;
          if table.None? || !meth.Str? then Escaped(AttributeError)
          else Dispatch(id, Walk(Namespace(table.value), Split(meth.s, '.')), params, call, data)
  }

  /** The reply once the method path has been walked: a missing section is
      -32601, a path through a handler raises TypeError, a namespace or a
      failing handler is -32603. */
  function Dispatch<H>(id: Json, w: Found<H>, params: seq<Json>,
                       call: (H, seq<Json>) -> CallOutcome, data: Json): Outcome
  {
    match w
    case NotFound => Replied(ErrorReply(id, MethodNotFoundCode, "Method not found", data))
    case WalkedIntoHandler => Escaped(TypeError)
    case Found(Namespace(_)) => Replied(ErrorReply(id, InternalErrorCode, "Internal error", data))
    case Found(Handler(h)) =>
      match call(h, params)
      case Returned(v) => Replied(SuccessReply(id, v))
      case _ => Replied(ErrorReply(id, InternalErrorCode, "Internal error", data))
  }

  /** Text `json.loads` rejects (or no text at all) gives a parse error with
      id null. */
  lemma ParseErrorCase<H>(table: Option<Table<H>>, request: Option<string>,
                          parse: string -> Option<Json>, call: (H, seq<Json>) -> CallOutcome)
    requires request.None? || parse(request.value).None?
    ensures Respond(table, request, parse, call) ==
      Replied(ErrorReply(Null, ParseErrorCode, "Parse error", RequestData(request)))
  {
  }

  /** A decoded request that is not an object with the three members, or
      whose params is not a list, is an invalid request; the id is echoed
      when it could be read. */
  lemma InvalidRequestCase<H>(table: Option<Table<H>>, s: string,
                              parse: string -> Option<Json>, call: (H, seq<Json>) -> CallOutcome)
    requires parse(s).Some?
    requires var v := parse(s).value;
      !(v.Obj? && "id" in v.fields && "method" in v.fields && "params" in v.fields && v.fields["params"].Arr?)
    ensures Respond(table, Some(s), parse, call) ==
      Replied(ErrorReply(Field(parse(s).value, "id").GetOr(Null), InvalidRequestCode, "Invalid request", Str(s)))
  {
  }

  /** A well-formed request: the reply echoes the id; a missing section is
      -32601, a raising or unencodable handler -32603, and a handler that
      returns gives its result with error null. */
  lemma WellFormedCases<H>(t: Table<H>, s: string, id: Json, name: string, params: seq<Json>,
                           parse: string -> Option<Json>, call: (H, seq<Json>) -> CallOutcome)
    requires parse(s) == Some(Obj(map["id" := id, "method" := Str(name), "params" := Arr(params)]))
    ensures Walk(Namespace(t), Split(name, '.')).NotFound? ==>
      Respond(Some(t), Some(s), parse, call) == Replied(ErrorReply(id, MethodNotFoundCode, "Method not found", Str(s)))
    ensures forall h :: Walk(Namespace(t), Split(name, '.')) == Found(Handler(h)) ==>
      Respond(Some(t), Some(s), parse, call) ==
        match call(h, params)
        case Returned(v) => Replied(SuccessReply(id, v))
        case _ => Replied(ErrorReply(id, InternalErrorCode, "Internal error", Str(s)))
  {
    WellFormedDispatched(t, s, id, name, params, parse, call);
  }

  /** A request with the three members reaches the dispatch on its own id,
      parameters and method path. */
  lemma WellFormedDispatched<H>(t: Table<H>, s: string, id: Json, name: string, params: seq<Json>,
                                parse: string -> Option<Json>, call: (H, seq<Json>) -> CallOutcome)
    requires parse(s) == Some(Obj(map["id" := id, "method" := Str(name), "params" := Arr(params)]))
    ensures Respond(Some(t), Some(s), parse, call) ==
      Dispatch(id, Walk(Namespace(t), Split(name, '.')), params, call, Str(s))
  {
    var f := map["id" := id, "method" := Str(name), "params" := Arr(params)];
    assert f["id"] == id && f["method"] == Str(name) && f["params"] == Arr(params);
  }

  /** A request that decodes to an object with the three members and a list
      of params is answered with its own id, never with a parse or request
      error. */
  lemma WellFormedKeepsId<H>(t: Table<H>, s: string, parse: string -> Option<Json>,
                             call: (H, seq<Json>) -> CallOutcome)
    requires parse(s).Some? && parse(s).value.Obj?
    requires var f := parse(s).value.fields;
      "id" in f && "method" in f && "params" in f && f["params"].Arr? && f["method"].Str?
    ensures var r := Respond(Some(t), Some(s), parse, call);
      r.Replied? ==> r.reply.fields["id"] == parse(s).value.fields["id"]
    ensures var r := Respond(Some(t), Some(s), parse, call);
      r.Replied? && r.reply.fields["error"] != Null ==>
        r.reply.fields["error"].fields["code"] in {Num(MethodNotFoundCode), Num(InternalErrorCode)}
  {
  }

  /** The body of `process_request` once the text is at hand: decode, check
      the three members, find the method, call it, build the envelope. */
  method Process<H>(table: Option<Table<H>>, request: Option<string>,
                    parse: string -> Option<Json>,
                    call: (H, seq<Json>) -> CallOutcome) returns (r: Outcome)
    ensures r == Respond(table, request, parse, call)
  {
    var data := RequestData(request);
    var parsed := None;
    if request.Some? {
      parsed := parse(request.value);
    }
    if parsed.None? {
      return Replied(ErrorReply(Null, ParseErrorCode, "Parse error", data));
    }
    var req := parsed.value;
    var id := Null;
    if !(req.Obj? && "id" in req.fields) {
      return Replied(ErrorReply(id, InvalidRequestCode, "Invalid request", data));
    }
    id := req.fields["id"];
    if !("method" in req.fields && "params" in req.fields && req.fields["params"].Arr?) {
      return Replied(ErrorReply(id, InvalidRequestCode, "Invalid request", data));
    }
    var meth := req.fields["method"];
    var params := req.fields["params"].items;
    if table.None? || !meth.Str? {
      return Escaped(AttributeError);
    }
    var found := FindMethod(table.value, meth.s);
    match found
    case NotFound =>
      r := Replied(ErrorReply(id, MethodNotFoundCode, "Method not found", data));
    case WalkedIntoHandler =>
      r := Escaped(TypeError);
    case Found(Namespace(_)) =>
      r := Replied(ErrorReply(id, InternalErrorCode, "Internal error", data));
    case Found(Handler(h)) =>
      var outcome := call(h, params);
      if outcome.Returned? {
        r := Replied(SuccessReply(id, outcome.v));
      } else {
        r := Replied(ErrorReply(id, InternalErrorCode, "Internal error", data));
      }
  }

  /** `JSONRPCHandlerRouter`: the registry lives in `methods`, created empty
      by the constructor. */
  class Router<H> {
    var methods: Table<H>

    constructor ()
      ensures methods == map[]
    {
      methods := map[];
    }

    /** `add_method`; the registry is unchanged when it
        raises. */
    method AddMethod(path: Path, m: Option<H>) returns (err: Option<PyError>)
      modifies this
      ensures match AddMethodSpec(old(methods), path, m)
        case Ok(t) => err == None && methods == t
        case Err(e) => err == Some(e) && methods == old(methods)
    {
      if IsEmptyPath(path) || m.None? {
        return Some(ValueError);
      }
      var secs := PathSections(path);
      var inserted := Insert(methods, secs[..|secs| - 1], secs[|secs| - 1], m.value);
      if inserted.None? {
        return Some(TypeError);
      }
      methods := inserted.value;
      return None;
    }

    /** `process_request(json_string)`. */
    method ProcessRequest(s: string, parse: string -> Option<Json>,
                          call: (H, seq<Json>) -> CallOutcome) returns (r: Outcome)
      ensures r == Respond(Some(methods), Some(s), parse, call)
    {
      r := Process(Some(methods), Some(s), parse, call);
    }
  }
}
