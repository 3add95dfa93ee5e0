# Git Enablement Server (ges): a verified model of its request-handling core

This project models, in Dafny, the server and client logic of the Git
Enablement Server: a small WSGI server that serves a browsable tree of
folders and git repositories, answers JSON-RPC calls about them, lets
clients download blobs and zipped trees, and starts `git` on Windows
(IronPython) through its own command-line quoting. Each core file of the
repository becomes one module:

- `jsonrpc_router.dfy` (JsonRpcRouter): the JSON-RPC 1.0 handler registry,
  a tree of nested dictionaries keyed by dotted method names, and the total
  mapping from a request text to a reply envelope with the error codes of
  section 5.1 of the JSON-RPC 2.0 specification (-32700, -32600, -32601,
  -32603).
- `jsonrpc_wsgi.dfy` (JsonRpcWsgi): the second copy of the router (its
  registry is created by the first `add_method`; its input may be a stream)
  and the WSGI application that answers POST with the encoded reply and
  anything else with 405.
- `wsgi_common.dfy` (WsgiCommon): what the three WSGI applications share:
  `canned_collection`, the in-place header list of `wsgiref.headers.Headers`
  (a class whose methods edit its list), `canned_handlers` and the header
  merge of `package_response`.
- `jsonrpc_client.dfy` (JsonRpcClient): `$.JSONRPC.call` of the browser
  plugin: the request id, the envelope, and which callback a reply reaches.
- `js_number.dfy` (JsNumber): what the plugin's loose `!=` between the id
  text and the reply's id does: the ToNumber of a string of section 7.1.3.1
  of ECMAScript 2015, rounded to an IEEE 754 double (round to nearest, ties
  to even), and the comparison of doubles.
- `repo_store.dfy` (RepoStore): the file system as a map, the repository
  search of `_find_repo_in_path` (a loop proved against a search function),
  git objects as a datatype, and the lookup of an object path in a commit.
- `ges_rpc_methods.dfy` (GesRpcMethods) and `repo_endpoints.dfy`
  (RepoEndpoints): the `browser.path_summary` method: path sanitising,
  directory listings, blob and tree summaries, and the endpoint table of a
  repository (one entry per commit that a tag, a branch or HEAD names,
  newest first).
- `fuzzy_path_handler.dfy` (FuzzyPathHandler) and `content_disposition.dfy`
  (ContentDisposition): the download application: sanitising, blob and zip
  contents, 403/404/304/200 decisions and headers, and the
  `Content-Disposition` value (the `filename*` form of section 3.2 of
  RFC 5987, with UTF-8 as in section 3 of RFC 3629).
- `subprocessio.dfy` (SubprocessIO): `list2cmdline`, `chop_off_executable`
  and the argument checks of `PopenIO.__init__`, with the round trip
  between the first two, and `check_call`.
- `ges_main.dfy` (GesMain): the `__main__` argument parser, the option
  layering, favicon check and routes of `assemble_ges_app`, and the
  temporary-folder rule of `assisted_start`.
- `serve_index_file.dfy` (ServeIndexFile): the one-page application, a
  class whose constructor reads the page once and whose call answers 304 or
  200.
- `wrappers.dfy`, `seqs.dfy`, `pytext.dfy`, `posix_path.dfy`, `json.dfy`:
  Option/Result and Python's exceptions, sequence lemmas, the Python string
  built-ins the code uses (`strip`, `split`, `join`, `lower`, `startswith`,
  `str(int)`, hexadecimal digits), `os.path` on POSIX (`join`, `normpath`,
  `abspath`, `split`, `splitext`), and decoded JSON values.

Library calls whose behaviour is not part of this repository (`json.loads`
and `json.dumps`, `mimetypes.guess_type`, `email.utils.formatdate` and
`parsedate`, `time.asctime`, `str` of a float, `git archive`, the clock)
are parameters of the operations that use them. The file system and the
repositories are values (`Store`), read but never changed.

The model follows the code as written, also where it differs from what
the comments promise:

- a success callback that throws makes the client plugin call the error
  callback too, so both callbacks can run for one call;
- `add_method` raises TypeError, not an override, when a section names an
  existing handler;
- `_sanitize_path` bounds the path by a string-prefix test, so a sibling
  folder whose name extends the base's passes;
- `_repo_endpoints` orders by the `asctime` text, not by time;
- `--remove_temp false` stores the truthy string `false`.

## Model

| member | source | states |
|---|---|---|
| WsgiCommon.WithoutNameValues | jsonrpc_wsgi_application/jsonrpc_wsgi_application.py:222-224 | deleting a header name (the first half of `Headers.__setitem__`) leaves nothing under any name that matches it case-insensitively and keeps every other name's values |
| WsgiCommon.SetHeaderValues | jsonrpc_wsgi_application/jsonrpc_wsgi_application.py:224 | `hObj[name] = value` leaves exactly `[value]` under that name, whatever its case, and changes no other name |
| WsgiCommon.MergeAllValues | jsonrpc_wsgi_application/jsonrpc_wsgi_application.py:222-224 | after the loop over caller tuples, a name that some tuple set holds the value of the last such tuple alone, joined with `"; "`; every other name keeps what it had |
| WsgiCommon.SetFreshName | jsonrpc_wsgi_application/jsonrpc_wsgi_application.py:235 | assigning a name the list does not hold yet appends one pair at the end and keeps the rest in order |
| WsgiCommon.MergeAllSnoc | jsonrpc_wsgi_application/jsonrpc_wsgi_application.py:234-235 | one more tuple at the end of the loop is one more assignment on the list built so far |
| WsgiCommon.HeaderList.constructor | jsonrpc_wsgi_application/jsonrpc_wsgi_application.py:222 | `Headers(headerbase)` wraps the given list as it is |
| WsgiCommon.HeaderList.Set | jsonrpc_wsgi_application/jsonrpc_wsgi_application.py:224 | after `headers[name] = value` the list holds `[value]` under `name` and every name that differs holds what it held before |
| WsgiCommon.HeaderList.Merge | jsonrpc_wsgi_application/jsonrpc_wsgi_application.py:223-224 | the loop edits the wrapped list in place into the merge of all tuples, in order |
| WsgiCommon.CannedHandlers | jsonrpc_wsgi_application/jsonrpc_wsgi_application.py:192-226 | a code has a reply exactly when it is a key of `canned_collection` (otherwise KeyError); the reply has that status line, the caller's headers merged over `Content-Type: text/plain`, and the body `['']` |
| WsgiCommon.PackageMerged | jsonrpc_wsgi_application/jsonrpc_wsgi_application.py:228-246 | status 200, the whole output as body, and the caller's headers merged over `Content-type: application/octet-stream`: a caller's Content-Type replaces the default one |
| JsonRpcRouter.PathSections | jsonrpc/jsonrpc_handler_router.py:84-87 | a list path is joined with `.` and split again, a string is split on `.`: there is at least one section and none holds a dot |
| JsonRpcRouter.WalkCons | jsonrpc/jsonrpc_handler_router.py:121-126 | looking up one more section first indexes the current dictionary, and a missing key is "not found" |
| JsonRpcRouter.InsertThenWalk | jsonrpc/jsonrpc_handler_router.py:88-97 | after a successful insertion, walking the non-empty sections and then the method name reaches the stored handler |
| JsonRpcRouter.InsertFailsIff | jsonrpc/jsonrpc_handler_router.py:89-96 | the insertion fails (TypeError from indexing a handler) exactly when some prefix of the non-empty sections already leads to a handler |
| JsonRpcRouter.PrefixStep | jsonrpc/jsonrpc_handler_router.py:89-96 | below a section holding no handler, a prefix of the sections reaches a handler exactly when the rest of that prefix does inside the section (a missing section holds nothing) |
| JsonRpcRouter.InsertKeepsOthers | jsonrpc/jsonrpc_handler_router.py:89-97 | a successful insertion keeps every handler reached by a path that does not start with the new entry's full path |
| JsonRpcRouter.ListPathSections | jsonrpc/jsonrpc_handler_router.py:84-87 | a list path whose items hold no dots names exactly its items as sections |
| JsonRpcRouter.ListPathSplitsItems | jsonrpc/jsonrpc_handler_router.py:70-87 | any non-empty list path names its items split at their dots, in order, which are the sections of the dotted string of its items (`['asdf.qwer', 'zxcv', 'method']` is `'asdf.qwer.zxcv.method'`) |
| JsonRpcRouter.AddThenFind | jsonrpc/jsonrpc_handler_router.py:80-97 | after `add_method(p, m)` succeeds on a name without empty inner sections, looking up `p` split on `.` finds `m` |
| JsonRpcRouter.FindMethod | jsonrpc/jsonrpc_handler_router.py:117-127 | `_find_method` walks the registry one section at a time and answers as the section-by-section lookup does, "not found" on the first missing key |
| JsonRpcRouter.Respond | jsonrpc/jsonrpc_handler_router.py:141-180 | every reply is an envelope with exactly `id`, `result` and `error`; an error reply carries one of the codes -32700, -32600, -32601, -32603 with its message, data equal to the request text and a null result; only AttributeError or TypeError escape |
| JsonRpcRouter.ParseErrorCase | jsonrpc/jsonrpc_handler_router.py:99-103 | text `json.loads` rejects gives code -32700 "Parse error", id null and the text as data |
| JsonRpcRouter.InvalidRequestCase | jsonrpc/jsonrpc_handler_router.py:105-115 | a decoded request without id, method or params, or whose params is not a list, gives code -32600 "Invalid request" and echoes the id when it was read before the failure |
| JsonRpcRouter.WellFormedCases | jsonrpc/jsonrpc_handler_router.py:117-133 | for a well-formed request, a missing section gives -32601 "Method not found", a handler that raises gives -32603 "Internal error", and a handler that returns gives error null, the request's id and its result |
| JsonRpcRouter.WellFormedDispatched | jsonrpc/jsonrpc_handler_router.py:152-165 | a request with the three members reaches the dispatch on its own id, params and method path |
| JsonRpcRouter.WellFormedKeepsId | jsonrpc/jsonrpc_handler_router.py:158-178 | every reply to a request with the three members and list params carries that request's id |
| JsonRpcRouter.Process | jsonrpc/jsonrpc_handler_router.py:141-180 | the method body of `process_request` (decode, extract, find, call, encode) answers as the reply function does |
| JsonRpcRouter.Router.constructor | jsonrpc/jsonrpc_handler_router.py:60-61 | the registry starts empty |
| JsonRpcRouter.Router.AddMethod | jsonrpc/jsonrpc_handler_router.py:63-97 | an empty path or a missing method gives ValueError, a path through an existing handler gives TypeError, and in both cases the registry is unchanged; otherwise the registry becomes the insertion's result |
| JsonRpcRouter.Router.ProcessRequest | jsonrpc/jsonrpc_handler_router.py:141-180 | the reply to a request text is the one the reply function gives on the current registry |
| JsonRpcWsgi.ReadBody | jsonrpc_wsgi_application/jsonrpc_wsgi_application.py:156-157 | a readable input is read in full, text is used as it is, and a missing input stays missing |
| JsonRpcWsgi.StreamReadFully | jsonrpc_wsgi_application/jsonrpc_wsgi_application.py:156-187 | a stream is answered exactly as its content given as text |
| JsonRpcWsgi.PostReplyHeaders | jsonrpc_wsgi_application/jsonrpc_wsgi_application.py:231-235 | merged over the default, the reply headers are Pragma and Cache-Control no-cache, Content-Type application/json (the default octet-stream is gone) and the Content-Length, in that order |
| JsonRpcWsgi.NoCacheMerged | jsonrpc_wsgi_application/jsonrpc_wsgi_application.py:275-277 | the two no-cache headers are appended after the default content type |
| JsonRpcWsgi.ContentTypeReplacesDefault | jsonrpc_wsgi_application/jsonrpc_wsgi_application.py:231-235 | `Content-Type` matches the default `Content-type` case-insensitively, so assigning it drops the default and appends the new value |
| JsonRpcWsgi.WsgiApp.constructor | jsonrpc_wsgi_application/jsonrpc_wsgi_application.py:248-257 | the application starts without a registry |
| JsonRpcWsgi.WsgiApp.AddMethod | jsonrpc_wsgi_application/jsonrpc_wsgi_application.py:63-100 | the registry is created by the first call, even one that then raises; the checks and the insertion are those of the other copy |
| JsonRpcWsgi.WsgiApp.ProcessRequest | jsonrpc_wsgi_application/jsonrpc_wsgi_application.py:144-187 | the input is read in full first; the reply is the one the reply function gives, and with no registry yet finding a method raises AttributeError |
| JsonRpcWsgi.WsgiApp.Call | jsonrpc_wsgi_application/jsonrpc_wsgi_application.py:259-282 | anything but POST gets `405 Method Not Allowed`, text/plain and `['']` without the input being read; a POST gets 200, the no-cache and JSON headers with the length of the encoded reply, and the encoded reply as body |
| JsonRpcClient.IdPrefix | static/scripts/jquery.jsonrpc.js:55 | the load-time prefix is one to four hexadecimal digits whose value is below 10000 |
| JsonRpcClient.HexBound | static/scripts/jquery.jsonrpc.js:55 | a number below 16^k has at most k hexadecimal digits |
| JsonRpcClient.RequestId | static/scripts/jquery.jsonrpc.js:59 | the id starts with the prefix, and the rest is hexadecimal digits whose value is the current time |
| JsonRpcClient.IdsDiffer | static/scripts/jquery.jsonrpc.js:55-59 | with the same prefix, calls made at different times get different ids |
| JsonRpcClient.Request | static/scripts/jquery.jsonrpc.js:60-65 | the settings are an uncached, unprocessed POST to the given URI whose data has exactly the members id, method and params, holding the call's values |
| JsonRpcClient.Prop | static/scripts/jquery.jsonrpc.js:74-82 | a member read gives a value exactly when the reply is an object holding that key |
| JsonRpcClient.OnSuccess | static/scripts/jquery.jsonrpc.js:71-89 | at most two callbacks run; without an error callback only success can run; when both run, success comes first and error second (an exception thrown by the success callback); the id check is JavaScript's loose `!=`, which reads a string id against a numeric reply id as a double (ToNumber, then round to nearest) |
| JsonRpcClient.OnError | static/scripts/jquery.jsonrpc.js:66-70 | a transport failure reaches the error callback when one was given and is dropped otherwise |
| JsonRpcClient.IdMismatchGoesToError | static/scripts/jquery.jsonrpc.js:74-88 | a reply whose id is not loosely equal to the request's (JavaScript's `==`: ToNumber of the id text compared as doubles for a numeric reply id) goes to the error callback and never to success |
| JsonRpcClient.SameIdMatches | static/scripts/jquery.jsonrpc.js:74 | a reply echoing the request's string id passes the id check |
| JsonRpcClient.ErrorMemberPassedUnchanged | static/scripts/jquery.jsonrpc.js:77-88 | with a matching id, a truthy `error` member is passed unchanged to the error callback, and success is not called |
| JsonRpcClient.ResultPassedVerbatim | static/scripts/jquery.jsonrpc.js:80-82 | with a matching id and a falsy `error`, the success callback receives the `result` member as it is (undefined when absent), even when it is empty or falsy |
| JsonRpcClient.NullReplyIsTypeError | static/scripts/jquery.jsonrpc.js:72-88 | a null reply makes reading its id throw, and that TypeError goes to the error callback |
| JsonRpcClient.DigitIdComparesExactly | static/scripts/jquery.jsonrpc.js:74 | an id of decimal digits whose value is below 2^53 is loosely equal to a numeric reply id of magnitude below 2^53 exactly when the two numbers are equal |
| JsonRpcClient.ExponentFormId | static/scripts/jquery.jsonrpc.js:55-74 | with the prefix `123` at time 0x18e00000000 the id is `12318e00000000`, which `!=` reads as 12318 times 10^0, so a reply with the number 12318 as its id passes the id check |
| JsonRpcClient.ZeroExponent | static/scripts/jquery.jsonrpc.js:74 | digits followed by `e` and an exponent of zeros are loosely equal to the number the digits name |
| JsNumber.RoundHalf | static/scripts/jquery.jsonrpc.js:74 | the kept quotient moves up by at most one: it stays below half a unit of remainder and goes up above half |
| JsNumber.Round | static/scripts/jquery.jsonrpc.js:74 | a non-negative rational gives +Infinity exactly when its nearest value has more than 2098 bits, that is reaches 2^2098 units (2^1024), and otherwise the finite double of that nearest value |
| JsNumber.Negate | static/scripts/jquery.jsonrpc.js:74 | negation keeps NaN and only NaN, and flips the sign of a finite value |
| JsNumber.NumberOfInt | static/scripts/jquery.jsonrpc.js:74 | a JSON integer becomes a double that is never NaN; below 2^53 in magnitude it is that integer exactly (RoundExact, SmallIntegersCompareExactly) |
| JsNumber.RadixLiteral | static/scripts/jquery.jsonrpc.js:74 | a `0x`, `0o` or `0b` literal never reads as -Infinity; its value is stated by RadixText |
| JsNumber.ExpAt | static/scripts/jquery.jsonrpc.js:74 | the index of the first `e` or `E`, or the length when there is none |
| JsNumber.DotAt | static/scripts/jquery.jsonrpc.js:74 | the index of the first `.`, or the length when there is none |
| JsNumber.Scaled | static/scripts/jquery.jsonrpc.js:74 | a digit value times a power of ten rounds to neither NaN nor -Infinity; its value for digit texts is stated by DecimalText and ExponentText |
| JsNumber.Unsigned | static/scripts/jquery.jsonrpc.js:74 | an unsigned decimal literal never reads as -Infinity; its value for digit texts is stated by DecimalText and ExponentText |
| JsNumber.DecimalLiteral | static/scripts/jquery.jsonrpc.js:74 | a mantissa with an optional exponent never reads as -Infinity; its value for digit texts is stated by DecimalText and ExponentText |
| JsNumber.BitLengthAtLeast | static/scripts/jquery.jsonrpc.js:74 | a number has more than `k` bits exactly when it reaches 2^k, which turns the overflow test of Round into "the rounded value reaches 2^2098 units" |
| JsNumber.NearestEven | static/scripts/jquery.jsonrpc.js:74 | rounding to a double is to nearest, ties to even: with `s` the bits dropped at the magnitude of the exact value (none below 2^53 units, else the value lies in [2^(52+s), 2^(53+s))), the result is a multiple of 2^s units, lies within half of 2^s units of `num * 2^1074 / den`, and on a tie is the even multiple |
| JsNumber.RadixText | static/scripts/jquery.jsonrpc.js:74 | a trimmed `0x`/`0o`/`0b` text (either case) reads as its digits' value in base 16, 8 or 2 rounded to a double, and as NaN with no digits or a digit outside the base |
| JsNumber.RoundExact | static/scripts/jquery.jsonrpc.js:74 | every integer below 2^53 is a double exactly |
| JsNumber.SmallIntegersCompareExactly | static/scripts/jquery.jsonrpc.js:74 | two integers of magnitude below 2^53 are equal as doubles exactly when they are equal |
| JsNumber.DecimalText | static/scripts/jquery.jsonrpc.js:74 | a string of decimal digits reads as the double that its value rounds to |
| JsNumber.ExponentText | static/scripts/jquery.jsonrpc.js:74 | digits, `e` and digits read as the first value times ten to the power of the second, rounded to a double |
| RepoStore.ListDir | ges_rpc_methods.py:194 | `os.listdir` gives the names exactly for a path that is a directory |
| RepoStore.Chain | ges_rpc_methods.py:119-123 | the segments searched are the path split on `/`, with an empty first segment inserted when the path has none, so the base comes first |
| RepoStore.FindRepoInPath | ges_rpc_methods.py:86-139 | the loop's answer is the search's: the repository path found, if any, and the unconsumed segments joined with `/` |
| RepoStore.StepPathFirst | ges_rpc_methods.py:126 | the first path looked at is the base joined with the first segment |
| RepoStore.StepPathNext | ges_rpc_methods.py:125-126 | each later step of the search is a step of the search that starts one segment further down |
| RepoStore.ScanFindsRepo | ges_rpc_methods.py:125-139 | when the first `k` paths are plain directories and the next has the git signature (head, info, objects, refs, in any case), that path is the repository and the segments after it are unconsumed |
| RepoStore.ScanStopsAtNonDir | ges_rpc_methods.py:131-139 | at the first path that is not a directory there is no repository, and the unconsumed part starts with that path's last component followed by the remaining segments |
| RepoStore.ScanAllPlain | ges_rpc_methods.py:125-139 | when every path on the way is a plain directory, there is no repository and nothing is unconsumed |
| RepoStore.BaseCheckedFirst | ges_rpc_methods.py:119-126 | the base path itself is checked first |
| RepoStore.Child | ges_rpc_methods.py:251 | `tree[name]` finds an entry of that name exactly when the object is a tree holding one |
| RepoStore.Descend | ges_rpc_methods.py:248-258 | looking up no names gives the starting object |
| RepoStore.LookupObject | ges_rpc_methods.py:248-258 | the loop over `obj_path.strip('/').split('/')` skips empty segments and descends through the rest, failing on the first missing one |
| RepoStore.EmptySegmentsIgnored | ges_rpc_methods.py:248-249 | `a//b` names the same segments as `a/b` |
| RepoStore.ResolveCommit | ges_rpc_methods.py:240 | `repo.commit(name)` succeeds exactly for a name that resolves to a stored commit |
| RepoStore.OpenRepo | ges_rpc_methods.py:230-235 | `git.Repo(path)` succeeds exactly for a path holding a repository |
| GesRpcMethods.FullPath | ges_rpc_methods.py:74-79 | the checked path, the base joined with the request path stripped of `/` and then of `\` and normalised, is absolute |
| GesRpcMethods.SanitizePath | ges_rpc_methods.py:46-84 | PathUnfitError for a non-string or for a normalised path that does not start with the base path as a string; otherwise the result holds no backslash and is no longer than what follows the base |
| GesRpcMethods.Relative | ges_rpc_methods.py:84 | stripping `/` then `\` and turning `\` into `/` leaves no backslash and never lengthens the text |
| GesRpcMethods.SanitizeTrivialPaths | ges_rpc_methods.py:74-84 | `""`, `"/"` and `"\"` all name the base and sanitise to `""` |
| GesRpcMethods.BackslashSlashIsAbsolute | ges_rpc_methods.py:77 | slashes are stripped before backslashes, so a path starting with `\/` is left absolute and the base is dropped by the join |
| GesRpcMethods.FolderItem | ges_rpc_methods.py:196-207 | a listing item has the directory's name and type `folder`, and has `is_repo` exactly for a repository |
| GesRpcMethods.DirItemsSound | ges_rpc_methods.py:194-208 | every item stands for a listed name that is a directory, marked exactly when it has the git signature |
| GesRpcMethods.DirItemsComplete | ges_rpc_methods.py:194-208 | every listed name that is a directory has its item |
| GesRpcMethods.ListDirSummary | ges_rpc_methods.py:164-208 | listing a path that is not a directory raises; otherwise the reply is the items of its sub-directories in listing order, files skipped |
| GesRpcMethods.ExtensionWithoutDot | ges_rpc_methods.py:261 | the extension holds no dot and is what follows the dot of `splitext` |
| GesRpcMethods.BlobMime | ges_rpc_methods.py:262-265 | the mime type is never empty: plain text for a small blob without extension, else the guess or `application/octet-stream` |
| GesRpcMethods.SuperMimeTypePrefix | ges_rpc_methods.py:270 | the major type is the part of the mime type before its first `/` |
| GesRpcMethods.BlobSummaryFields | ges_rpc_methods.py:259-279 | a blob summary has exactly the members type, name and size, plus `data` when shown; `type` holds the mime type, its major type and the extension; name and size are the blob's; `data`, the blob's text, is there exactly when the size is below 64000 and the mime type starts with `text` |
| GesRpcMethods.BlobFieldsShape | ges_rpc_methods.py:266-278 | the summary members are exactly type, name and size, plus data when it is shown; `type` is the given type object, name and size those of the blob, data its text |
| GesRpcMethods.SmallBlobWithoutExtensionIsText | ges_rpc_methods.py:262-278 | a blob below 64000 bytes without extension is `text/plain` and is shown inline |
| GesRpcMethods.ItemSummary | ges_rpc_methods.py:283-302 | a tree entry is listed by its name; only a file carries `size` and only a submodule carries `url` |
| GesRpcMethods.TreeItems | ges_rpc_methods.py:281-303 | a tree listing has one item per entry, in order |
| GesRpcMethods.TreeListing | ges_rpc_methods.py:281-303 | the loop over `tree.values()` builds that listing |
| GesRpcMethods.VirtItem | ges_rpc_methods.py:214-317 | the kind is repoitem, repofolder or remotelink; PathUnfitError arises exactly when the commit does not resolve or the object path leads nowhere |
| GesRpcMethods.ObjectItem | ges_rpc_methods.py:259-317 | blobs, trees and submodules each have a summary; only an unsupported object raises, and not PathUnfitError |
| GesRpcMethods.ObjectItemSummary | ges_rpc_methods.py:259-317 | the branch on the object's type answers as the summary function does |
| GesRpcMethods.VirtItemSummary | ges_rpc_methods.py:214-317 | the method answers as the item function does |
| GesRpcMethods.ObjectPathSplit | ges_rpc_methods.py:406-408 | a non-empty object path is split at its first `/` into the commit name and the path inside the commit |
| GesRpcMethods.ObjectPathCommitOnly | ges_rpc_methods.py:406-410 | an object path of one segment names a commit's root tree |
| GesRpcMethods.RepoObjectSummary | ges_rpc_methods.py:377-410 | the method answers as the summary function does: endpoints for an empty path, an item otherwise |
| GesRpcMethods.ObjectSummary | ges_rpc_methods.py:377-410 | inside a repository the kind is `repo`, `repoitem`, `repofolder` or `remotelink`, never `folder` |
| GesRpcMethods.FolderListing | ges_rpc_methods.py:471-478 | a folder reply exists exactly when the directory can be listed, and then it is the `folder` kind with the listing of that directory |
| GesRpcMethods.Located | ges_rpc_methods.py:464-486 | no repository with something left unconsumed raises PathUnfitError, and the kind is `folder` exactly when no repository lies on the path |
| GesRpcMethods.PathSummary | ges_rpc_methods.py:412-486 | a path that fails sanitising raises PathUnfitError; every reply is an object with `type` and `meta.path` equal to the sanitised path |
| GesRpcMethods.GetPathSummary | ges_rpc_methods.py:412-486 | `get_path_summary` answers as the summary function does |
| RepoEndpoints.SortByTime | ges_rpc_methods.py:365 | the reverse sort by time gives a newest-first list (by Python string order) that is a permutation of its input |
| RepoEndpoints.FirstSeen | ges_rpc_methods.py:334-364 | the dictionary's keys in insertion order are the ids met, each once, and no others |
| RepoEndpoints.EntryFor | ges_rpc_methods.py:319-362 | the entry of a commit carries its id; a name is among its tags exactly when it is a tag of the repository resolving to that commit; a name other than `HEAD` is among its branches exactly when a branch of that name points at the commit; `HEAD` is listed, last, when HEAD points at the commit and no tag or branch does |
| RepoEndpoints.EntryIds | ges_rpc_methods.py:343-362 | the commits with an entry are exactly those a tag, a branch or HEAD points at, each once, all stored |
| RepoEndpoints.Unsorted | ges_rpc_methods.py:364 | the list before sorting holds the entry of each such commit, in order of first occurrence |
| RepoEndpoints.Endpoints | ges_rpc_methods.py:364-365 | the endpoint list is newest first and a permutation of the unsorted list |
| RepoEndpoints.EndpointsAreEntries | ges_rpc_methods.py:343-365 | every element of the list is the full entry of its commit |
| RepoEndpoints.EndpointsOncePerCommit | ges_rpc_methods.py:334-365 | each commit a tag, a branch or HEAD points at has exactly one entry |
| RepoEndpoints.CollectTags | ges_rpc_methods.py:343-352 | after the loop over the tags there is one entry per tagged commit, filled in from that commit, listing its tags in order |
| RepoEndpoints.CollectBranches | ges_rpc_methods.py:353-356 | after the loop over the branches every commit a tag or branch points at has its entry, with its branches in order |
| RepoEndpoints.AddHead | ges_rpc_methods.py:358-362 | the HEAD step gives every commit its final entry and the key order of first occurrence |
| RepoEndpoints.Values | ges_rpc_methods.py:364 | reading the values in key order gives the unsorted list |
| RepoEndpoints.RepoEndpoints | ges_rpc_methods.py:327-375 | a path without a repository, or a repository whose tags or branches do not all resolve, raises; otherwise the reply is `repo` with the sorted endpoint list and the description |
| FuzzyPathHandler.FullPath | fuzzy_path_handler.py:149-154 | the checked path, the base joined with the request path stripped of `/` and `\` in one pass and normalised, is absolute |
| FuzzyPathHandler.JoinKeepsBase | fuzzy_path_handler.py:152 | stripping both kinds of slash in one pass leaves a relative path, so the join keeps the base in front |
| FuzzyPathHandler.SanitizePath | fuzzy_path_handler.py:147-157 | PathUnfitError exactly when the normalised path does not start with the base path as a string; otherwise the result holds no backslash and is no longer than what follows the base |
| FuzzyPathHandler.GuessedMime | fuzzy_path_handler.py:267 | the mime type is the guess when there is one, otherwise `application/octet-stream`; it is never empty |
| FuzzyPathHandler.NameElements | fuzzy_path_handler.py:272-276 | the name parts end with the commit name and start with the repository directory's name when it has one |
| FuzzyPathHandler.ItemContents | fuzzy_path_handler.py:218-325 | a repository that does not open passes its error on; a path naming nothing is PathUnfitError; a blob found is served as its own data, with its length as size, the guessed mime type and the last component of the object path as name; a tree found is served as exactly what `git archive` gives for it, as `application/zip` without size named `<parts joined by _>.zip`, or PathUnfitError when the archive fails; any other object is PathUnfitError |
| FuzzyPathHandler.ZipContents | fuzzy_path_handler.py:271-319 | a zip download succeeds exactly when the archive call does, holds the archive's output, has no size, mime type `application/zip` and the name built from the name parts; a failed archive is PathUnfitError |
| FuzzyPathHandler.ZipRequest | fuzzy_path_handler.py:293-301 | `git archive` is called on the repository's full path and the commit, for the object path, with the name elements joined by `/` plus a trailing `/` as prefix |
| FuzzyPathHandler.ZipName | fuzzy_path_handler.py:272-276 | a tree of a repository in a named directory downloads as `<directory>_<commit>.zip` |
| FuzzyPathHandler.GetRepoItemContents | fuzzy_path_handler.py:218-325 | the method answers as the item function does |
| FuzzyPathHandler.PathContents | fuzzy_path_handler.py:327-402 | a path that fails sanitising, or one on which no repository lies, raises PathUnfitError |
| FuzzyPathHandler.RepositoryMeansHead | fuzzy_path_handler.py:392-402 | a path that ends at a repository downloads its `HEAD` commit's root |
| FuzzyPathHandler.GetPathContents | fuzzy_path_handler.py:327-402 | the method answers as the path-contents function does |
| FuzzyPathHandler.SameDateIsFresh | fuzzy_path_handler.py:437-439 | a client sending back the very `Last-Modified` it was given is current by date |
| FuzzyPathHandler.SameTagIsFresh | fuzzy_path_handler.py:440-442 | a client sending back the very tag it was given is current by tag |
| FuzzyPathHandler.AsSpecs | fuzzy_path_handler.py:439 | a header list handed on keeps each pair as a one-value tuple, in order |
| FuzzyPathHandler.BaseHeaderValues | fuzzy_path_handler.py:430-435 | the headers every reply starts from carry the tag and neither a length nor a disposition |
| FuzzyPathHandler.DownloadHeaderValues | fuzzy_path_handler.py:444-484 | before the merge a download carries one content type, the length exactly when the size is known, the tag, and a disposition exactly when there is a file name |
| FuzzyPathHandler.ServedReply | fuzzy_path_handler.py:444-487 | a request that is current neither by date nor by tag gets 200, the content, its mime type, the length exactly when known, the tag and the disposition exactly when there is a file name |
| FuzzyPathHandler.DownloadMergedValues | fuzzy_path_handler.py:81-99 | after `package_response` merges the list over its octet-stream default, the type, length, tag and disposition are those of the download |
| FuzzyPathHandler.MergedOverOctet | fuzzy_path_handler.py:81-99 | merging a list over the octet-stream default leaves under each name the list's last value, or the default's when the list has none |
| FuzzyPathHandler.OutsideRootForbidden | fuzzy_path_handler.py:415-418 | a request outside the served root gets 403 |
| FuzzyPathHandler.CurrentTagNotModified | fuzzy_path_handler.py:440-442 | a client with the current tag gets 304 and an empty body |
| FuzzyPathHandler.CurrentDateNotModified | fuzzy_path_handler.py:437-439 | a client with the current `Last-Modified` gets 304 |
| FuzzyPathHandler.Call | fuzzy_path_handler.py:404-487 | `__call__` answers as the reply function does: 403 outside the root, 404 on any lookup failure, 304 when current, else the download |
| FuzzyPathHandler.Respond | fuzzy_path_handler.py:421-487 | the part after the lookup, which edits the header list in place, answers as the content-reply function does |
| ContentDisposition.Utf8Char | fuzzy_path_handler.py:460-463 | a character encodes to one to four bytes: one byte, equal to the code, exactly below 0x80, else a lead byte of at least 0xC0 and continuation bytes in 0x80..0xBF |
| ContentDisposition.Utf8RoundTrip | fuzzy_path_handler.py:461 | decoding the UTF-8 bytes of a character gives the character back |
| ContentDisposition.Utf8 | fuzzy_path_handler.py:461 | the UTF-8 encoding of a name is never shorter than the name |
| ContentDisposition.QuoteByte | fuzzy_path_handler.py:460-463 | a byte quotes to itself exactly when it is an ASCII character of the safe set (letters, digits, `_.-` and `!#$%&+-^_`{}~`), otherwise to `%` and two hexadecimal digits; the output is ASCII |
| ContentDisposition.Quote | fuzzy_path_handler.py:460-463 | the quoted text is ASCII |
| ContentDisposition.QuoteAppend | fuzzy_path_handler.py:460-463 | quoting works byte by byte: the quoting of two byte strings is the concatenation of their quotings |
| ContentDisposition.QuoteChar | fuzzy_path_handler.py:460-463 | a safe character quotes to itself, any other character to at least two characters |
| ContentDisposition.QuoteLength | fuzzy_path_handler.py:460-463 | quoting never shortens |
| ContentDisposition.EncodedLength | fuzzy_path_handler.py:460-464 | quoting a name leaves it as it is when all its characters are safe and lengthens it otherwise |
| ContentDisposition.EncodedUnchangedIff | fuzzy_path_handler.py:464 | `_file_name == _efn` exactly when every character of the name is safe |
| ContentDisposition.Latin1Properties | fuzzy_path_handler.py:473-478 | the fallback name has the name's length, keeps every character up to 255 in place and has none above 255 |
| ContentDisposition.Latin1Fallback | fuzzy_path_handler.py:473-478 | the loop building `_cfn` gives that fallback name |
| ContentDisposition.DispositionForms | fuzzy_path_handler.py:464-484 | a name of safe characters is sent once as `attachment; filename="name"`; any other name is sent as `filename` with every character above U+00FF replaced by `_`, and quoted as `filename*=utf-8''...` |
| ContentDisposition.ContentDispositionFor | fuzzy_path_handler.py:460-484 | the header value the step builds is that disposition value |
| SubprocessIO.Backslashes | subprocessio/subprocessio_ironpython.py:616 | `'\\' * n` has length n |
| SubprocessIO.BackslashesAdd | subprocessio/subprocessio_ironpython.py:616-629 | two runs of backslashes joined make one run of the summed length |
| SubprocessIO.TrailingBackslashes | subprocessio/subprocessio_ironpython.py:610-624 | the run of backslashes still held in `bs_buf` at the end of an argument is no longer than the argument |
| SubprocessIO.Escape | subprocessio/subprocessio_ironpython.py:610-627 | the escaped form of an argument is never shorter than the argument |
| SubprocessIO.EscapedChar | subprocessio/subprocessio_ironpython.py:611-624 | every character of an argument leaves some text |
| SubprocessIO.EscapeSnoc | subprocessio/subprocessio_ironpython.py:610-624 | escaping one more character appends that character's text after the held backslashes, doubled before a quote |
| SubprocessIO.EscapeLoop | subprocessio/subprocessio_ironpython.py:603-627 | the inner loop appends the escaped argument minus the backslashes still held, and holds exactly the argument's trailing backslash run |
| SubprocessIO.ArgTextParts | subprocessio/subprocessio_ironpython.py:607-630 | an argument's text is its escaped form, wrapped in quotes with the trailing backslashes doubled before the closing quote exactly when it holds a space or tab |
| SubprocessIO.List2CmdLine | subprocessio/subprocessio_ironpython.py:569-631 | a bare string counts as a one-item list; the loop builds the arguments' texts joined by single spaces, where an argument that adds nothing gets no separator |
| SubprocessIO.EscapeChars | subprocessio/subprocessio_ironpython.py:610-627 | every character of an escaped argument comes from the argument or is an added backslash or quote |
| SubprocessIO.EscapeFirst | subprocessio/subprocessio_ironpython.py:610-624 | an escaped argument starts with a backslash when the argument starts with a quote, and with the argument's own first character otherwise |
| SubprocessIO.QuotedIffBlank | subprocessio/subprocessio_ironpython.py:607-609 | a non-empty argument's text opens with a quote exactly when the argument holds a space or tab |
| SubprocessIO.EmptyArgumentVanishes | subprocessio/subprocessio_ironpython.py:605-607 | an empty argument is written as nothing: it is neither quoted nor separated when it comes first |
| SubprocessIO.CmdLineSingle | subprocessio/subprocessio_ironpython.py:598-631 | a one-argument command line is that argument's text |
| SubprocessIO.CmdLineAppend | subprocessio/subprocessio_ironpython.py:602-606 | more arguments never change the opening of a command line |
| SubprocessIO.CmdLineStartsWithFirst | subprocessio/subprocessio_ironpython.py:598-631 | a command line opens with its first argument's text |
| SubprocessIO.Consumed | subprocessio/subprocessio_ironpython.py:558-566 | the scan consumes at most the whole line |
| SubprocessIO.Chop | subprocessio/subprocessio_ironpython.py:539-567 | TypeError for the empty string and IndexError for a line of white space (the white space of .NET's `String.Trim()`, which IronPython's `strip()` is); otherwise the stripped line is cut where the scan stops: the executable is the stripped text up to and including the stop, the rest the stripped remainder |
| SubprocessIO.QuotedSplit | subprocessio/subprocessio_ironpython.py:548-567 | on a line that opens with a quote, the executable ends right after the first quote (from index 1) preceded by an even run of backslashes, and runs to the end of the line when there is no such quote |
| SubprocessIO.ScanQuoted | subprocessio/subprocessio_ironpython.py:554-566 | inside quotes, with the escape state equal to the parity of the backslashes before, the scan consumes up to the next closing quote, or to the end of the line when none follows |
| SubprocessIO.UnquotedSplit | subprocessio/subprocessio_ironpython.py:548-567 | on a line that does not open with a quote, the executable ends right after the first space or tab, and runs to the end of the line when there is none |
| SubprocessIO.ExecutableEnd | subprocessio/subprocessio_ironpython.py:549-566 | on a stripped non-empty line the scan stops after at least one character and within the line |
| SubprocessIO.LeadingTrimSpace | subprocessio/subprocessio_ironpython.py:548 | `strip()` is .NET's `String.Trim()`: a line opening with any of its white-space characters (a no-break space, say) before a word, a space and more text chops to that word and that text; `"\u00A0a b"` gives `("a", "b")` (with `c` the no-break space, `a` = "a" and `rest` = "b") |
| SubprocessIO.ChopOffExecutable | subprocessio/subprocessio_ironpython.py:539-567 | the scanning loop with `i`, `escaped` and `got_it` answers as the chop function does |
| SubprocessIO.ScanEscaped | subprocessio/subprocessio_ironpython.py:558-566 | inside quotes the scan runs over an escaped argument without stopping, and leaves the escape state the parity of the argument's trailing backslashes gives: no quote of the argument ends the executable early |
| SubprocessIO.StrippedLine | subprocessio/subprocessio_ironpython.py:548 | stripping a line keeps an opening text that neither starts nor ends with whitespace |
| SubprocessIO.QuotedEnd | subprocessio/subprocessio_ironpython.py:549-567 | on a line opening with a quoted argument's text the scan stops right after its closing quote, and the executable is that text |
| SubprocessIO.UnquotedEnd | subprocessio/subprocessio_ironpython.py:553-567 | on a line opening with an unquoted argument's text the scan stops at the blank after it, or at the end, and the executable is that text |
| SubprocessIO.ChopOpening | subprocessio/subprocessio_ironpython.py:539-567 | a line opening with a non-empty argument's text, the argument holding no whitespace but spaces and tabs, gives that text back as the executable |
| SubprocessIO.ChopCmdLine | subprocessio/subprocessio_ironpython.py:539-631 | round trip: when the first argument is non-empty and holds no whitespace other than spaces and tabs, `chop_off_executable(list2cmdline(seq))[0] == list2cmdline([seq[0]])` |
| SubprocessIO.Buffering | subprocessio/subprocessio_ironpython.py:255-262 | None becomes 0, -1 becomes 65536, any other integer is kept, and a non-integer raises TypeError |
| SubprocessIO.CommandText | subprocessio/subprocessio_ironpython.py:268-269 | a string is passed on as it is, a list through `list2cmdline` |
| SubprocessIO.Popen | subprocessio/subprocessio_ironpython.py:231-277 | the checks raise in the order of the checks in `PopenIO.__init__` (preexec_fn ValueError, universal_newlines NotImplementedError, startupinfo or creationflags ValueError, stderr=STDOUT NotImplementedError, a non-int bufsize TypeError); with a shell the arguments are `/C ` and the command line; with an executable it runs with the whole command line |
| SubprocessIO.PopenRunsFirstArgument | subprocessio/subprocessio_ironpython.py:268-277 | given a list and no executable, the process runs the first argument's command-line text |
| SubprocessIO.PopenChops | subprocessio/subprocessio_ironpython.py:273-277 | with no shell and no executable, the process is what `chop_off_executable` splits off the command line |
| SubprocessIO.PopenIO | subprocessio/subprocessio_ironpython.py:231-277 | the straight-line checks answer as the launch function does |
| SubprocessIO.CheckCall | subprocessio/subprocessio_ironpython.py:490-537 | 0 exactly when the process starts and exits with 0; CalledProcessError carrying the exit status and the arguments exactly when it starts and exits otherwise; the launch errors pass through |
| GesMain.Unquote | ges.py:361 | stripping `"` and then `'` at both ends never lengthens an item and leaves no `'` at either end |
| GesMain.ParseFrom | ges.py:356-362 | the loop over the items never removes a key |
| GesMain.ParseCommandLine | ges.py:346-362 | the loop over `sys.argv`, with `options` and `lastKey`, gives the parse of the whole command line |
| GesMain.ParsedKeys | ges.py:356-362 | the keys after parsing are the keys before plus the names of the switches: a value never adds a key of its own |
| GesMain.CommandLineKeys | ges.py:346-362 | the parsed options hold the six defaults and every switch named on the command line, and nothing else |
| GesMain.FlagThenValue | ges.py:357-362 | `--name value` stores the value, stripped of `"` then `'`, under `name` and clears the pending key, whatever came before |
| GesMain.FlagThenFlag | ges.py:357-359 | `--a --b` leaves `a` set to True and makes `b` the pending key |
| GesMain.SecondValueIgnored | ges.py:360-362 | a second value after `--name value` finds no pending key and is ignored |
| GesMain.BareDashesTakeNoValue | ges.py:357-361 | a bare `--` sets the empty key to True and, since the empty key is falsy, the value after it is ignored |
| GesMain.LeadingItemIgnored | ges.py:356-362 | a non-switch item with no pending key changes nothing |
| GesMain.ProgramNameIgnored | ges.py:356 | the program name in `argv[0]` does not affect the parse |
| GesMain.Unfold | ges.py:69-72 | popping positionals into the options never removes a key |
| GesMain.LayerOptions | ges.py:59-72 | the loop over `default_options` and `args` layers defaults, then keywords, then positionals |
| GesMain.UnfoldAt | ges.py:69-72 | the j-th positional argument ends up under the j-th default key |
| GesMain.UnfoldKeeps | ges.py:69-72 | a key no positional reaches keeps its value |
| GesMain.UnfoldSurplus | ges.py:69 | only as many positionals as there are defaults are used |
| GesMain.PositionalWins | ges.py:59-72 | a positional argument overrides both the keyword and the default of its key, in the order content_path, static_content_path, uri_marker |
| GesMain.KeywordKept | ges.py:64-65 | a keyword that no positional overrides is kept |
| GesMain.DefaultKept | ges.py:59-64 | a default key set neither by keyword nor by position keeps its default |
| GesMain.SurplusIgnored | ges.py:69-72 | positional arguments beyond the third are ignored |
| GesMain.MarkerRegex | ges.py:100-103 | the decorative group is empty exactly when the marker is |
| GesMain.Routes | ges.py:100-131 | seven routes from the index page to the fuzzy path handler; with no marker the index pattern is `/$` and every other pattern starts with `/`; with a marker every pattern starts with the decorative group ending in `/<marker>` |
| GesMain.PatternsStart | ges.py:105-131 | each pattern is the decorative part followed by its own text, so it starts with that part |
| GesMain.Finish | ges.py:73-136 | a successful assembly had string paths and marker; both paths are made absolute, `favicon.ico` and `index.html` (which the index page application opens) exist under the static path, the routes are those of the marker, and the app is wrapped for logging exactly when `devel` or `debug` is set |
| GesMain.AssembleGesApp | ges.py:30-136 | the method answers as layering and then finishing do, so a missing `index.html` is IOError |
| GesMain.LayeredKeys | ges.py:59-65 | the layered options always hold the three default keys |
| GesMain.AssembleErrors | ges.py:73-90 | with string paths and marker, AttributeError (`.decode`) exactly when one is not a string; the missing-favicon error naming the static folder exactly when `favicon.ico` is missing; IOError exactly when the favicon exists but `index.html` does not; success exactly when both exist |
| GesMain.MarkerRoutes | ges.py:100-131 | a marker given as the third positional argument prefixes every route |
| GesMain.ChooseContentPath | ges.py:279-285 | a falsy content path is replaced by a new temporary folder and only then counts as temporary; a missing key is KeyError |
| GesMain.RemovesContent | ges.py:341-342 | the folder is deleted only when it is temporary and `remove_temp` or `demo` is truthy |
| GesMain.CleanupFromCommandLine | ges.py:279-285 | after parsing a command line, the content folder is deleted exactly when the parsed content path is falsy (none was given) and `--remove_temp` or `--demo` has a truthy value |
| GesMain.RemoveTempWordDeletes | ges.py:341-361 | `--remove_temp` followed by any non-empty word stores that word, which is truthy, so a temporary folder is deleted |
| GesMain.UnquoteFalse | ges.py:361 | the word `false` is stored as it is, so `--remove_temp false` still deletes |
| ServeIndexFile.IndexHeaders | serve_index_file.py:95-99 | the stored headers are three: the type, the date and the tag |
| ServeIndexFile.IndexReply | serve_index_file.py:101-120 | every request gets 304 or 200 |
| ServeIndexFile.NotModifiedLine | serve_index_file.py:33-34 | the code `not_modified` has the status line `304 Not Modified` |
| ServeIndexFile.IndexFile.constructor | serve_index_file.py:83-99 | the file name is `index.html` under the static path; the page, the tag `str(mtime)` and the date `formatdate(mtime)` are computed once here and the stored headers carry them |
| ServeIndexFile.IndexFile.Call | serve_index_file.py:101-120 | a request answers as the reply function does for the stored headers, page, tag and date; the stored list is copied, so the object is not modified |
| ServeIndexFile.Open | serve_index_file.py:89-94 | a missing `index.html` raises IOError; otherwise the object holds that page and the tag and date of its modification time |
| ServeIndexFile.ServedPage | serve_index_file.py:105-120 | a request current neither by date nor by tag gets 200, the stored headers in order with `Date` last, and the page read at construction |
| ServeIndexFile.AnyTagNotModified | serve_index_file.py:112-114 | `If-None-Match: *` gets 304 and the body `['']` |
| ServeIndexFile.CurrentTagNotModified | serve_index_file.py:112-114 | a client sending back the current tag gets 304 and the body `['']` |
| ServeIndexFile.CurrentDateNotModified | serve_index_file.py:109-111 | a client sending back the current `Last-Modified` gets 304 |
| ServeIndexFile.MergedOverPlain | serve_index_file.py:61-65 | merging a list over the text/plain base leaves under each name the list's last value, or the base's when the list has none |
| ServeIndexFile.RequestHeaderValues | serve_index_file.py:95-108 | the request's copy of the headers holds one value each for the type (text/html), the tag and the date |
| ServeIndexFile.NotModifiedHeaders | serve_index_file.py:109-114 | a 304 still says text/html, because the stored `Content-type` replaces the canned text/plain, and carries the tag and the date |

## Left out

- Threads, processes and streams: `subprocessio/subprocessio.py`, the
  stream redirectors, `wait`, `communicate`, `communicateIO` and
  `_cleanup`. `PopenIO` is modelled up to the start of the process, and
  `check_call` takes the exit status as a parameter.
- gitpython and the real file system: repositories, commits, trees and
  directory listings are values. Temporary files, `git archive` output and
  `shutil.rmtree` are not modelled; the archive is a parameter.
- `json.loads`/`json.dumps`, `mimetypes.guess_type`, `email.utils`,
  `time.time`/`asctime`, `str(mtime)` and `tempfile.mkdtemp`: these are
  uninterpreted parameters, so no property depends on their output format.
  `_encode_response_data` failing (an unencodable result) is modelled as a
  call outcome and gives -32603.
- `.decode('utf8')` on a path or marker: it is the identity, and a
  decoding error is not modelled. A value without `decode` (a non-string)
  raises AttributeError or PathUnfitError as in the code.
- Body iteration: `wsgi.file_wrapper`, `iter(read, '')` and the chunk size
  are not modelled; a body is the list of its whole content.
- `package_response` in `serve_index_file.py` passes its headers on
  unmerged; the JSON-RPC and download copies merge them. Both are
  modelled, but only one `canned_collection` table is kept, because the
  three copies are identical.
- Route regex matching is done by `git_http_backend.WSGIHandlerSelector`,
  which is not part of this model; the routes are modelled as data. The
  static file server, the git smart-HTTP handlers and
  `assemble_methods_list` are not part of this model either.
- `ges.py`: the help text, port probing and the CherryPy server, demo zip
  extraction, wsgilog, and the static-content fallback of `assisted_start`
  (lines 266-276) are left out. `CleanupFromCommandLine` goes straight from
  the parsed options to the temporary-folder rule.
- `chop_off_executable` on a non-string (TypeError) and `list2cmdline` on
  a `bytearray` are not modelled: arguments are strings.
- `if result:` in `list2cmdline` tests the list of pieces; the model tests
  the text built so far. The two agree because every piece that is empty
  is appended together with a non-empty one.
- The order of a Python 2 dictionary's keys in `_repo_endpoints` is taken
  to be insertion order.
- The messages of exceptions are not modelled, except the folder named by
  the missing-favicon error; `IOError` of a missing `index.html` carries no
  path.
- `ShowVarsWSGIApp` and `static/scripts/ges.js` hold no logic of the core.
- `JsonRpcClient.LooseEqualsString`: ToNumber is modelled for decimal,
  `Infinity` and `0x`/`0o`/`0b` literals with exact round-to-nearest; the
  latitude section 7.1.3.1 of ECMAScript 2015 gives an engine for literals
  of more than 20 significant digits is not modelled (the exact value is
  rounded), array ids print their numbers exactly and in decimal only,
  while JavaScript prints the double they round to (from 2^53 on
  `[12345678901234567]` prints `12345678901234568`) and uses exponent form
  from 10^21 on, and reply numbers are whole, as JSON values here are.
- `JsonRpcClient.OnSuccess` and `JsonRpcClient.IdMismatchGoesToError`
  inherit the limits of `JsonRpcClient.LooseEqualsString`.
- `ContentDisposition.DispositionForms`: header values are text; the final
  `.encode('utf8')` of every header value (fuzzy_path_handler.py:466-483)
  is not modelled.
- `SubprocessIO.CheckCall`: the `cmd` of CalledProcessError is the argument
  list, a string command being taken as the one-item list holding it;
  Python stores `popenargs[0]` as it was given.
- `SubprocessIO.ChopCmdLine`: the round trip is stated for a first argument
  whose only white space (of .NET's `String.Trim()`) is spaces and tabs;
  other white space (a newline, a no-break space) is quoted by neither
  side and can break it, as in the code.
