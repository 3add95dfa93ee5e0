/** What the three WSGI applications share: the table of canned status lines,
    the header list that `wsgiref.headers.Headers` edits in place, the canned
    replies and the header merge of `package_response`. */
module WsgiCommon {
  import opened Wrappers
  import opened PyText

  /** One `(name, value)` pair of a WSGI header list. */
  datatype Header = Header(name: string, value: string)

  /** A header tuple a caller hands in, `(name, v1, v2, ...)`; it is stored
      with its values joined by `"; "`. */
  datatype HeaderSpec = HeaderSpec(name: string, values: seq<string>)

  /** What an application passes to `start_response` and returns as body. */
  datatype Response = Response(status: string, headers: seq<Header>, body: seq<string>)

  /** `'; '.join(header[1:])`. */
  function SpecValue(h: HeaderSpec): string {
    Join(h.values, "; ")
  }

  /** `Headers` compares names after lower-casing them. */
  predicate SameName(a: string, b: string) {
    Lower(a) == Lower(b)
  }

  /** The values stored under `name`, in list order. */
  function Values(hs: seq<Header>, name: string): seq<string>
    decreases |hs|
  {
    if hs == [] then []
    else if SameName(hs[|hs| - 1].name, name) then Values(hs[..|hs| - 1], name) + [hs[|hs| - 1].value]
    else Values(hs[..|hs| - 1], name)
  }

  /** `del headers[name]`: drops every pair whose name matches, keeping the
      order of the rest. */
  function WithoutName(hs: seq<Header>, name: string): (r: seq<Header>)
    ensures |r| <= |hs|
    ensures forall i :: 0 <= i < |r| ==> !SameName(r[i].name, name)
    decreases |hs|
  {
    if hs == [] then []
    else
      var rest := WithoutName(hs[..|hs| - 1], name);
      var last := hs[|hs| - 1];
      if SameName(last.name, name) then rest else rest + [last]
  }

  /** `headers[name] = value`: the old values of `name` go, the new pair is
      appended at the end. */
  function SetHeader(hs: seq<Header>, name: string, value: string): seq<Header> {
    WithoutName(hs, name) + [Header(name, value)]
  }

  /** The header list after `headers[h[0]] = '; '.join(h[1:])` for every
      tuple of `specs` in turn. */
  function MergeAll(hs: seq<Header>, specs: seq<HeaderSpec>): seq<Header>
    decreases |specs|
  {
    if specs == [] then hs
    else
      var last := specs[|specs| - 1];
      SetHeader(MergeAll(hs, specs[..|specs| - 1]), last.name, SpecValue(last))
  }

  /** The value the last tuple of `specs` named `name` carries, if any. */
  function LastSpecValue(specs: seq<HeaderSpec>, name: string): Option<string>
    decreases |specs|
  {
    if specs == [] then None
    else if SameName(specs[|specs| - 1].name, name) then Some(SpecValue(specs[|specs| - 1]))
    else LastSpecValue(specs[..|specs| - 1], name)
  }

  /** What a merge should leave under `m`: the last tuple's value for a name
      some tuple sets, the old values otherwise. */
  function MergedValues(hs: seq<Header>, specs: seq<HeaderSpec>, m: string): seq<string> {
    match LastSpecValue(specs, m)
    case Some(v) => [v]
    case None => Values(hs, m)
  }

  lemma {:induction false} ValuesAppend(a: seq<Header>, b: seq<Header>, name: string)
    ensures Values(a + b, name) == Values(a, name) + Values(b, name)
    decreases |b|
  {
    if b == [] {
      assert a + b == a;
    } else {
      var b' := b[..|b| - 1];
      assert (a + b)[..|a + b| - 1] == a + b';
      assert (a + b)[|a + b| - 1] == b[|b| - 1];
      ValuesAppend(a, b', name);
    }
  }

  /** After dropping `n`, nothing is stored under a name matching `n`, and
      every other name keeps its values. */
  lemma {:induction false} WithoutNameValues(hs: seq<Header>, n: string, m: string)
    ensures Values(WithoutName(hs, n), m) == if SameName(m, n) then [] else Values(hs, m)
    decreases |hs|
  {
    if hs != [] {
      var init := hs[..|hs| - 1];
      var last := hs[|hs| - 1];
      WithoutNameValues(init, n, m);
      if !SameName(last.name, n) {
        ValuesAppend(WithoutName(init, n), [last], m);
      }
    }
  }

  /** `headers[n] = v` leaves exactly `[v]` under `n` and changes no other
      name. */
  lemma SetHeaderValues(hs: seq<Header>, n: string, v: string, m: string)
    ensures Values(SetHeader(hs, n, v), m) == if SameName(m, n) then [v] else Values(hs, m)
  {
    WithoutNameValues(hs, n, m);
    ValuesAppend(WithoutName(hs, n), [Header(n, v)], m);
  }

  /** After the merge, a name some tuple set holds the value of the last such
      tuple alone; every other name keeps the values it had. */
  lemma {:induction false} MergeAllValues(hs: seq<Header>, specs: seq<HeaderSpec>, m: string)
    ensures Values(MergeAll(hs, specs), m) == MergedValues(hs, specs, m)
    decreases |specs|
  {
    if specs != [] {
      var last := specs[|specs| - 1];
      MergeAllValues(hs, specs[..|specs| - 1], m);
      SetHeaderValues(MergeAll(hs, specs[..|specs| - 1]), last.name, SpecValue(last), m);
    }
  }

  /** Setting a name the list does not hold yet appends one pair. */
  lemma SetFreshName(hs: seq<Header>, n: string, v: string)
    requires forall i :: 0 <= i < |hs| ==> !SameName(hs[i].name, n)
    ensures SetHeader(hs, n, v) == hs + [Header(n, v)]
    decreases |hs|
  {
    WithoutFreshName(hs, n);
  }

  lemma {:induction false} WithoutFreshName(hs: seq<Header>, n: string)
    requires forall i :: 0 <= i < |hs| ==> !SameName(hs[i].name, n)
    ensures WithoutName(hs, n) == hs
    decreases |hs|
  {
    if hs != [] {
      var init := hs[..|hs| - 1];
      WithoutFreshName(init, n);
      assert !SameName(hs[|hs| - 1].name, n);
      assert WithoutName(hs, n) == init + [hs[|hs| - 1]];
      assert init + [hs[|hs| - 1]] == hs;
    }
  }

  /** One more tuple at the end of a merge is one more assignment. */
  lemma MergeAllSnoc(hs: seq<Header>, specs: seq<HeaderSpec>, s: HeaderSpec)
    ensures MergeAll(hs, specs + [s]) == SetHeader(MergeAll(hs, specs), s.name, SpecValue(s))
  {
    assert (specs + [s])[..|specs|] == specs;
  }

  /** A `Headers` object wrapped around a list it edits in place. */
  class HeaderList {
    var items: seq<Header>

    constructor (hs: seq<Header>)
      ensures items == hs
    {
      items := hs;
    }

    /** `headers[name] = value`. */
    method Set(name: string, value: string)
      modifies this
      ensures items == SetHeader(old(items), name, value)
      ensures Values(items, name) == [value]
      ensures forall m :: !SameName(m, name) ==> Values(items, m) == Values(old(items), m)
    {
      items := WithoutName(items, name) + [Header(name, value)];
      SetHeaderValues(old(items), name, value, name);
      forall m | !SameName(m, name)
        ensures Values(items, m) == Values(old(items), m)
      {
        SetHeaderValues(old(items), name, value, m);
      }
    }

    /** `for header in specs: headers[header[0]] = '; '.join(header[1:])`. */
    method Merge(specs: seq<HeaderSpec>)
      modifies this
      ensures items == MergeAll(old(items), specs)
    {
      var i := 0;
      while i < |specs|
        invariant 0 <= i <= |specs|
        invariant items == MergeAll(old(items), specs[..i])
      {
        assert specs[..i + 1][..i] == specs[..i];
        Set(specs[i].name, SpecValue(specs[i]));
        i := i + 1;
      }
      assert specs[..|specs|] == specs;
    }
  }

  /** `canned_collection`: numeric codes and their named aliases. */
  const CannedCollection: map<string, string> := map[
    "304" := "304 Not Modified",
    "not_modified" := "304 Not Modified",
    "301" := "301 Moved Permanently",
    "moved" := "301 Moved Permanently",
    "400" := "400 Bad request",
    "bad_request" := "400 Bad request",
    "401" := "401 Access denied",
    "access_denied" := "401 Access denied",
    "401.4" := "401.4 Authorization failed by filter",
    "403" := "403 Forbidden",
    "forbidden" := "403 Forbidden",
    "404" := "404 Not Found",
    "not_found" := "404 Not Found",
    "405" := "405 Method Not Allowed",
    "method_not_allowed" := "405 Method Not Allowed",
    "417" := "417 Execution failed",
    "execution_failed" := "417 Execution failed",
    "200" := "200 OK",
    "501" := "501 Not Implemented",
    "not_implemented" := "501 Not Implemented"
  ]

  /** The base header of every canned reply. */
  const TextPlain: Header := Header("Content-Type", "text/plain")

  /** `canned_handlers(environ, start_response, code, headers)`: the status
      line for `code` (None when the lookup raises KeyError), the caller's
      headers merged over a text/plain base, and the body `['']`. */
  method CannedHandlers(code: string, headers: seq<HeaderSpec>) returns (r: Option<Response>)
    ensures r.Some? <==> code in CannedCollection
    ensures r.Some? ==> r.value.status == CannedCollection[code] && r.value.body == [""]
    ensures r.Some? ==> r.value.headers == MergeAll([TextPlain], headers)
    ensures r.Some? ==> forall m :: Values(r.value.headers, m) == MergedValues([TextPlain], headers, m)
  {
    var headerbase := new HeaderList([TextPlain]);
    if headers != [] {
      headerbase.Merge(headers);
    }
    if code in CannedCollection {
      r := Some(Response(CannedCollection[code], headerbase.items, [""]));
      forall m {
        MergeAllValues([TextPlain], headers, m);
      }
    } else {
      r := None;
    }
  }

  /** The default header of `package_response` in the applications that merge
      caller headers over it. */
  const OctetStream: Header := Header("Content-type", "application/octet-stream")

  /** `package_response(outIO, environ, start_response, headers)` of the
      JSON-RPC and fuzzy-path applications: status 200, the caller's headers
      merged over `Content-type: application/octet-stream`, and the whole
      content of `outIO` as body. */
  method PackageMerged(content: string, headers: seq<HeaderSpec>) returns (r: Response)
    ensures r.status == "200 OK" && r.body == [content]
    ensures r.headers == MergeAll([OctetStream], headers)
    ensures forall m :: Values(r.headers, m) == MergedValues([OctetStream], headers, m)
  {
    var iface := new HeaderList([OctetStream]);
    iface.Merge(headers);
    r := Response("200 OK", iface.items, [content]);
    forall m {
      MergeAllValues([OctetStream], headers, m);
    }
  }
}
