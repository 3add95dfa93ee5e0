/** `ges.py`: the command-line parser of the `__main__` block, the way
    `assemble_ges_app` layers its options and builds its route patterns,
    and the rule that decides whether the content folder is deleted when
    the server stops. */
module GesMain {
  import opened Wrappers
  import opened Seqs
  import opened PyText
  import opened PosixPath

  /** A value of the options dictionary: `None`, a switch (`True` or
      `False`) or a string. */
  datatype Value = NoneValue | Switch(on: bool) | Text(s: string)

  /** Python truthiness of an option value. */
  predicate Truthy(v: Value) {
    match v
    case NoneValue => false
    case Switch(b) => b
    case Text(s) => s != []
  }

  type Options = map<string, Value>

  // ---------------------------------------------------------------------
  // The command line
  // ---------------------------------------------------------------------

  /** The dictionary the `__main__` block starts from. */
  const MainDefaults: Options := map[
    "content_path" := NoneValue,
    "static_content_path" := NoneValue,
    "uri_marker" := Text(""),
    "port" := NoneValue,
    "demo" := Switch(false),
    "remove_temp" := Switch(false)]

  /** The parser's state: the options and `lastKey`, the switch still
      waiting for its value. */
  datatype ArgvState = ArgvState(options: Options, lastKey: Option<string>)

  /** `item.startswith('--')`. */
  predicate IsFlag(item: string) {
    StartsWith(item, "--")
  }

  /** A pending key takes the next value only when it is truthy: a bare
      `--` names the empty key, which takes nothing. */
  predicate Pending(lastKey: Option<string>) {
    lastKey.Some? && lastKey.value != []
  }

  /** `item.strip('"').strip("'")`. */
  function Unquote(item: string): (r: string)
    ensures |r| <= |item|
    ensures r == [] || (r[0] != '\'' && r[|r| - 1] != '\'')
  {
    Strip(Strip(item, {'"'}), {'\''})
  }

  /** One turn of the loop over `sys.argv`. */
  function ArgvStep(st: ArgvState, item: string): ArgvState {
    if IsFlag(item) then
      ArgvState(st.options[item[2..] := Switch(true)], Some(item[2..]))
    else if Pending(st.lastKey) then
      ArgvState(st.options[st.lastKey.value := Text(Unquote(item))], None)
    else
      st
  }

  /** The state after the loop has run over `items`; no key is ever
      removed. */
  function ParseFrom(st: ArgvState, items: seq<string>): (r: ArgvState)
    ensures st.options.Keys <= r.options.Keys
    decreases |items|
  {
    if items == [] then st
    else ArgvStep(ParseFrom(st, items[..|items| - 1]), items[|items| - 1])
  }

  /** The options the `__main__` block hands to `assisted_start`. */
  function ParseArgv(argv: seq<string>): Options {
    ParseFrom(ArgvState(MainDefaults, None), argv).options
  }

  /** The `__main__` loop over `sys.argv`. */
  method ParseCommandLine(argv: seq<string>) returns (options: Options)
    ensures options == ParseArgv(argv)
  {
    options := MainDefaults;
    var lastKey: Option<string> := None;
    for i := 0 to |argv|
      invariant ArgvState(options, lastKey) == ParseFrom(ArgvState(MainDefaults, None), argv[..i])
    {
      var item := argv[i];
      PrefixSnoc(argv, i);
      if StartsWith(item, "--") {
        options := options[item[2..] := Switch(true)];
        lastKey := Some(item[2..]);
      } else if lastKey.Some? && lastKey.value != [] {
        options := options[lastKey.value := Text(Unquote(item))];
        lastKey := None;
      }
    }
    assert argv[..|argv|] == argv;
  }

  /** The names the switches of `items` give. */
  function FlagNames(items: seq<string>): set<string>
    decreases |items|
  {
    if items == [] then {}
    else
      var last := items[|items| - 1];
      FlagNames(items[..|items| - 1]) + (if IsFlag(last) then {last[2..]} else {})
  }

  /** The keys after parsing are the keys before and the switch names: a
      value never adds a key of its own. */
  lemma {:induction false} ParsedKeys(st: ArgvState, items: seq<string>)
    requires Pending(st.lastKey) ==> st.lastKey.value in st.options
    ensures ParseFrom(st, items).options.Keys == st.options.Keys + FlagNames(items)
    ensures Pending(ParseFrom(st, items).lastKey) ==>
      ParseFrom(st, items).lastKey.value in ParseFrom(st, items).options
    decreases |items|
  {
    if items != [] {
      ParsedKeys(st, items[..|items| - 1]);
    }
  }

  /** Every key of the starting dictionary, and every switch named on the
      command line, is a key of the result, and there are no others. */
  lemma CommandLineKeys(argv: seq<string>)
    ensures ParseArgv(argv).Keys == MainDefaults.Keys + FlagNames(argv)
  {
    ParsedKeys(ArgvState(MainDefaults, None), argv);
  }

  /** `--name value`: the switch is set to True and becomes the pending
      key, then the value, unquoted, replaces True and clears the pending
      key, whatever came before. */
  lemma FlagThenValue(st: ArgvState, pre: seq<string>, name: string, v: string)
    requires name != [] && !IsFlag(v)
    ensures var r := ParseFrom(st, pre + ["--" + name, v]);
      name in r.options && r.options[name] == Text(Unquote(v)) && r.lastKey == None
  {
    var a := "--" + name;
    assert (pre + [a, v])[..|pre| + 1] == pre + [a];
    assert (pre + [a])[..|pre|] == pre;
    assert a[..2] == "--" && a[2..] == name;
  }

  /** `--a --b`: a switch followed by another switch stays True, and the
      second becomes the pending key. */
  lemma FlagThenFlag(st: ArgvState, pre: seq<string>, a: string, b: string)
    requires a != b
    ensures var r := ParseFrom(st, pre + ["--" + a, "--" + b]);
      a in r.options && r.options[a] == Switch(true) && r.lastKey == Some(b)
  {
    var fa, fb := "--" + a, "--" + b;
    assert (pre + [fa, fb])[..|pre| + 1] == pre + [fa];
    assert (pre + [fa])[..|pre|] == pre;
    assert fa[..2] == "--" && fa[2..] == a;
    assert fb[..2] == "--" && fb[2..] == b;
  }

  /** `--name value extra`: a second value finds no pending key and is
      ignored. */
  lemma SecondValueIgnored(st: ArgvState, pre: seq<string>, name: string, v: string, w: string)
    requires name != [] && !IsFlag(v) && !IsFlag(w)
    ensures ParseFrom(st, pre + ["--" + name, v, w]) == ParseFrom(st, pre + ["--" + name, v])
  {
    var a := "--" + name;
    assert (pre + [a, v, w])[..|pre| + 2] == pre + [a, v];
    FlagThenValue(st, pre, name, v);
  }

  /** `--` followed by a value: the empty key is set to True, and since it
      is falsy the value is ignored. */
  lemma BareDashesTakeNoValue(st: ArgvState, pre: seq<string>, v: string)
    requires !IsFlag(v)
    ensures var r := ParseFrom(st, pre + ["--", v]);
      "" in r.options && r.options[""] == Switch(true) && r.lastKey == Some("")
  {
    assert (pre + ["--", v])[..|pre| + 1] == pre + ["--"];
    assert (pre + ["--"])[..|pre|] == pre;
  }

  /** A leading item that is not a switch (the program name, `argv[0]`)
      finds no pending key and changes nothing. */
  lemma {:induction false} LeadingItemIgnored(st: ArgvState, x: string, rest: seq<string>)
    requires st.lastKey == None && !IsFlag(x)
    ensures ParseFrom(st, [x] + rest) == ParseFrom(st, rest)
    decreases |rest|
  {
    if rest == [] {
      assert ([x] + rest)[..0] == [];
    } else {
      var front := rest[..|rest| - 1];
      LeadingItemIgnored(st, x, front);
      assert ([x] + rest)[..|rest|] == [x] + front;
    }
  }

  /** The parse of a full command line is the parse of its arguments. */
  lemma ProgramNameIgnored(argv: seq<string>)
    requires argv != [] && !IsFlag(argv[0])
    ensures ParseArgv(argv) == ParseArgv(argv[1..])
  {
    assert argv == [argv[0]] + argv[1..];
    LeadingItemIgnored(ArgvState(MainDefaults, None), argv[0], argv[1..]);
  }

  // ---------------------------------------------------------------------
  // assemble_ges_app
  // ---------------------------------------------------------------------

  /** `default_options`: the keys positional arguments fill, in order, with
      their defaults. */
  const AppDefaults: seq<(string, Value)> := [
    ("content_path", Text(".")),
    ("static_content_path", Text("./static")),
    ("uri_marker", Text(""))]

  /** `dict(default_options)`. */
  const AppDefaultMap: Options := map[
    "content_path" := Text("."),
    "static_content_path" := Text("./static"),
    "uri_marker" := Text("")]

  /** What the `while default_options and args` loop leaves: each
      positional argument is stored under the next default key, until one
      of the two lists runs out. */
  function Unfold(options: Options, defaults: seq<(string, Value)>, args: seq<Value>): (r: Options)
    ensures options.Keys <= r.Keys
    decreases |args|
  {
    if defaults == [] || args == [] then options
    else Unfold(options[defaults[0].0 := args[0]], defaults[1..], args[1..])
  }

  /** The options after defaults, then keywords, then positionals. */
  function Layered(args: seq<Value>, kw: Options): Options {
    Unfold(AppDefaultMap + kw, AppDefaults, args)
  }

  /** Lines 59-72: the options are layered and the positionals popped into
      them. */
  method LayerOptions(args: seq<Value>, kw: Options) returns (options: Options)
    ensures options == Layered(args, kw)
  {
    options := AppDefaultMap + kw;
    var defaults := AppDefaults;
    var rest := args;
    while defaults != [] && rest != []
      invariant Unfold(options, defaults, rest) == Layered(args, kw)
      decreases |rest|
    {
      var d := defaults[0];
      defaults := defaults[1..];
      var a := rest[0];
      rest := rest[1..];
      options := options[d.0 := a];
    }
  }

  /** No key occurs twice among the defaults. */
  predicate DistinctKeys(defaults: seq<(string, Value)>) {
    forall i, j :: 0 <= i < j < |defaults| ==> defaults[i].0 != defaults[j].0
  }

  /** The `j`-th positional argument ends up under the `j`-th key. */
  lemma {:induction false} UnfoldAt(o: Options, d: seq<(string, Value)>, a: seq<Value>, j: nat)
    requires DistinctKeys(d) && j < |d| && j < |a|
    ensures d[j].0 in Unfold(o, d, a) && Unfold(o, d, a)[d[j].0] == a[j]
    decreases j
  {
    if j > 0 {
      UnfoldAt(o[d[0].0 := a[0]], d[1..], a[1..], j - 1);
    } else {
      UnfoldKeeps(o[d[0].0 := a[0]], d[1..], a[1..], d[0].0);
    }
  }

  /** A key no positional argument reaches keeps its value. */
  lemma {:induction false} UnfoldKeeps(o: Options, d: seq<(string, Value)>, a: seq<Value>, k: string)
    requires forall j :: 0 <= j < |d| && j < |a| ==> d[j].0 != k
    ensures k in Unfold(o, d, a) <==> k in o
    ensures k in o ==> Unfold(o, d, a)[k] == o[k]
    decreases |a|
  {
    if d != [] && a != [] {
      assert d[0].0 != k;
      forall j | 0 <= j < |d| - 1 && j < |a| - 1
        ensures d[1..][j].0 != k
      {
        assert d[1..][j] == d[j + 1];
      }
      UnfoldKeeps(o[d[0].0 := a[0]], d[1..], a[1..], k);
    }
  }

  /** Only as many positionals as there are defaults are used. */
  lemma {:induction false} UnfoldSurplus(o: Options, d: seq<(string, Value)>, a: seq<Value>)
    requires |a| >= |d|
    ensures Unfold(o, d, a) == Unfold(o, d, a[..|d|])
    decreases |d|
  {
    if d != [] {
      assert a[..|d|][1..] == a[1..][..|d| - 1];
      UnfoldSurplus(o[d[0].0 := a[0]], d[1..], a[1..]);
    }
  }

  /** A positional argument overrides both the keyword and the default of
      its key. */
  lemma PositionalWins(args: seq<Value>, kw: Options, j: nat)
    requires j < |AppDefaults| && j < |args|
    ensures AppDefaults[j].0 in Layered(args, kw) && Layered(args, kw)[AppDefaults[j].0] == args[j]
  {
    UnfoldAt(AppDefaultMap + kw, AppDefaults, args, j);
  }

  /** A keyword not overridden by a positional argument is kept. */
  lemma KeywordKept(args: seq<Value>, kw: Options, k: string)
    requires k in kw
    requires forall j :: 0 <= j < |AppDefaults| && j < |args| ==> AppDefaults[j].0 != k
    ensures k in Layered(args, kw) && Layered(args, kw)[k] == kw[k]
  {
    UnfoldKeeps(AppDefaultMap + kw, AppDefaults, args, k);
  }

  /** A default key set neither by keyword nor by position keeps its
      default. */
  lemma DefaultKept(args: seq<Value>, kw: Options, j: nat)
    requires |args| <= j < |AppDefaults| && AppDefaults[j].0 !in kw
    ensures var k := AppDefaults[j].0; k in Layered(args, kw) && Layered(args, kw)[k] == AppDefaults[j].1
  {
    UnfoldKeeps(AppDefaultMap + kw, AppDefaults, args, AppDefaults[j].0);
  }

  /** Surplus positional arguments are ignored. */
  lemma SurplusIgnored(args: seq<Value>, kw: Options)
    requires |args| > |AppDefaults|
    ensures Layered(args, kw) == Layered(args[..|AppDefaults|], kw)
  {
    UnfoldSurplus(AppDefaultMap + kw, AppDefaults, args);
  }

  /** The applications a route hands a request to. */
  datatype Handler = IndexFile | JsonRpc | StaticFiles | InfoRefs | SmartHttp | FuzzyPath

  /** A route of the handler selector: its pattern, its application and
      the request methods it is registered for (empty: given without a
      method, for every method). */
  datatype Route = Route(pattern: string, handler: Handler, verbs: seq<string>)

  /** The assembled application: the two absolute paths and the marker it
      was built with, the final options, the routes in the order they are
      added, and whether it is wrapped for logging. */
  datatype App = App(
    contentPath: string, staticPath: string, marker: string,
    options: Options, routes: seq<Route>, logged: bool)

  /** The decorative part that precedes the marker, or nothing. */
  function MarkerRegex(marker: string): (r: string)
    ensures marker == [] <==> r == []
  {
    if marker != [] then "(?P<decorative_path>.*?)(?:/" + marker + ")" else ""
  }

  /** What each route's pattern holds after the marker and its slash. */
  const RpcTail := "rpc[/]*$"
  const FaviconTail := "favicon.ico$"
  const StaticTail := "static/(?P<working_path>.*)$"
  const InfoRefsTail := "(?P<working_path>.*?)/info/refs\\?.*?service=(?P<git_command>git-[^&]+).*$"
  const SmartHttpTail := "(?P<working_path>.*)/(?P<git_command>git-[^/]+)$"
  const FuzzyTail := "(?P<working_path>.*)$"

  /** The routes, lines 100-131. With no marker the index page is `/$`
      and every other pattern starts at `/`; with a marker every pattern
      starts with the decorative group that ends in `/marker`. */
  function Routes(marker: string): (r: seq<Route>)
    ensures |r| == 7 && r[0].handler == IndexFile && r[6].handler == FuzzyPath
    ensures marker == [] ==> r[0].pattern == "/$" && forall i :: 1 <= i < |r| ==> StartsWith(r[i].pattern, "/")
    ensures marker != [] ==> forall i :: 0 <= i < |r| ==> StartsWith(r[i].pattern, MarkerRegex(marker))
  {
    var m := MarkerRegex(marker);
    var getHead := ["GET", "HEAD"];
    var tails := [RpcTail, FaviconTail, StaticTail, InfoRefsTail, SmartHttpTail, FuzzyTail];
    var routes := [
      Route((if m != [] then m else "/") + "$", IndexFile, []),
      Route(m + "/" + tails[0], JsonRpc, []),
      Route(m + "/" + tails[1], StaticFiles, getHead),
      Route(m + "/" + tails[2], StaticFiles, getHead),
      Route(m + "/" + tails[3], InfoRefs, getHead),
      Route(m + "/" + tails[4], SmartHttp, ["POST"]),
      Route(m + "/" + tails[5], FuzzyPath, getHead)];
    PatternsStart(routes, m, marker, tails);
    routes
  }

  /** Each of the seven patterns is the decorative part followed by its
      own text. */
  lemma PatternsStart(routes: seq<Route>, m: string, marker: string, tails: seq<string>)
    requires m == MarkerRegex(marker) && |routes| == 7 && |tails| == 6
    requires routes[0].pattern == (if m != [] then m else "/") + "$"
    requires forall i :: 1 <= i < 7 ==> routes[i].pattern == m + "/" + tails[i - 1]
    ensures marker == [] ==> routes[0].pattern == "/$" && forall i :: 1 <= i < 7 ==> StartsWith(routes[i].pattern, "/")
    ensures marker != [] ==> forall i :: 0 <= i < 7 ==> StartsWith(routes[i].pattern, m)
  {
    forall i | 1 <= i < 7
      ensures StartsWith(routes[i].pattern, m + "/")
    {
      assert (m + "/" + tails[i - 1])[..|m + "/"|] == m + "/";
    }
    if marker != [] {
      assert (m + "$")[..|m|] == m;
      forall i | 1 <= i < 7
        ensures StartsWith(routes[i].pattern, m)
      {
        assert routes[i].pattern[..|m + "/"|][..|m|] == routes[i].pattern[..|m|];
        assert (m + "/")[..|m|] == m;
      }
    } else {
      assert m + "/" == "/";
    }
  }

  /** The value under `k` is a string: `.decode('utf8')` exists. */
  predicate HasText(o: Options, k: string) {
    k in o && o[k].Text?
  }

  /** Lines 73-136 after the layering: the two paths are made absolute (a
      value that is not a string has no `decode`), the marker is checked to
      be a string, the favicon is looked for under the static path, the
      index page application is built (line 90; its constructor opens
      `index.html` under the static path, so a missing page raises
      IOError), and the routes are built. `cwd` stands for the working directory and `files`
      for the paths `os.path.isfile` accepts. */
  function Finish(o: Options, cwd: string, files: set<string>): (r: Result<App>)
    requires IsAbs(cwd)
    ensures r.Ok? ==> HasText(o, "content_path") && HasText(o, "static_content_path") && HasText(o, "uri_marker")
    ensures r.Ok? ==> r.value.contentPath == AbsPath(cwd, o["content_path"].s)
    ensures r.Ok? ==> r.value.staticPath == AbsPath(cwd, o["static_content_path"].s)
    ensures r.Ok? ==> IsAbs(r.value.contentPath) && IsAbs(r.value.staticPath)
    ensures r.Ok? ==> PathJoin(r.value.staticPath, "favicon.ico") in files
    ensures r.Ok? ==> PathJoin(r.value.staticPath, "index.html") in files
    ensures r.Ok? ==> r.value.marker == o["uri_marker"].s && r.value.routes == Routes(r.value.marker)
    ensures r.Ok? ==> r.value.logged == ("devel" in o || "debug" in o)
    ensures r.Ok? ==> r.value.options.Keys == o.Keys
  {
    if "content_path" !in o then Err(KeyError)
    else if !o["content_path"].Text? then Err(AttributeError)
    else if "static_content_path" !in o then Err(KeyError)
    else if !o["static_content_path"].Text? then Err(AttributeError)
    else if "uri_marker" !in o then Err(KeyError)
    else if !o["uri_marker"].Text? then Err(AttributeError)
    else
      var contentPath := AbsPath(cwd, o["content_path"].s);
      var staticPath := AbsPath(cwd, o["static_content_path"].s);
      var marker := o["uri_marker"].s;
      if PathJoin(staticPath, "favicon.ico") !in files then Err(StaticContentMissing(staticPath))
      else if PathJoin(staticPath, "index.html") !in files then Err(IOError)
      else
        var options := o["content_path" := Text(contentPath)]["static_content_path" := Text(staticPath)];
        Ok(App(contentPath, staticPath, marker, options, Routes(marker), "devel" in o || "debug" in o))
  }

  /** `assemble_ges_app(*args, **kw)`. */
  method AssembleGesApp(args: seq<Value>, kw: Options, cwd: string, files: set<string>) returns (r: Result<App>)
    requires IsAbs(cwd)
    ensures r == Finish(Layered(args, kw), cwd, files)
  {
    var options := LayerOptions(args, kw);
    r := Finish(options, cwd, files);
  }

  /** The layered options always hold the three default keys. */
  lemma LayeredKeys(args: seq<Value>, kw: Options)
    ensures "content_path" in Layered(args, kw)
    ensures "static_content_path" in Layered(args, kw)
    ensures "uri_marker" in Layered(args, kw)
  {
    assert AppDefaultMap.Keys <= (AppDefaultMap + kw).Keys;
  }

  /** So the only errors are a path or marker that is not a string, a
      missing favicon, and then a missing index page. */
  lemma AssembleErrors(args: seq<Value>, kw: Options, cwd: string, files: set<string>)
    requires IsAbs(cwd)
    ensures var o := Layered(args, kw); var r := Finish(o, cwd, files);
      var texts := HasText(o, "content_path") && HasText(o, "static_content_path") && HasText(o, "uri_marker");
      && (r == Err(AttributeError) <==> !texts)
      && (texts ==>
            var staticPath := AbsPath(cwd, o["static_content_path"].s);
            && (r == Err(StaticContentMissing(staticPath)) <==> PathJoin(staticPath, "favicon.ico") !in files)
            && (r == Err(IOError) <==>
                  PathJoin(staticPath, "favicon.ico") in files && PathJoin(staticPath, "index.html") !in files)
            && (r.Ok? <==>
                  PathJoin(staticPath, "favicon.ico") in files && PathJoin(staticPath, "index.html") in files))
  {
    LayeredKeys(args, kw);
  }

  /** With an empty marker the index route is `/$`; a marker given as the
      third positional argument prefixes every route. */
  lemma MarkerRoutes(args: seq<Value>, kw: Options, cwd: string, files: set<string>)
    requires IsAbs(cwd) && |args| >= 3 && args[2].Text? && args[2].s != []
    ensures var r := Finish(Layered(args, kw), cwd, files);
      r.Ok? ==> forall i :: 0 <= i < |r.value.routes| ==>
        StartsWith(r.value.routes[i].pattern, MarkerRegex(args[2].s))
  {
    PositionalWins(args, kw, 2);
  }

  // ---------------------------------------------------------------------
  // The temporary content folder
  // ---------------------------------------------------------------------

  /** Lines 279-285: a falsy content path is replaced by a new temporary
      folder (`tempDir` stands for what `tempfile.mkdtemp()` returns); the
      flag says whether that happened. */
  function ChooseContentPath(o: Options, tempDir: string): (r: Result<(Options, bool)>)
    ensures "content_path" !in o <==> r == Err(KeyError)
    ensures r.Ok? ==> (r.value.1 <==> !Truthy(o["content_path"]))
    ensures r.Ok? && r.value.1 ==> r.value.0 == o["content_path" := Text(tempDir)]
    ensures r.Ok? && !r.value.1 ==> r.value.0 == o
  {
    if "content_path" !in o then Err(KeyError)
    else if Truthy(o["content_path"]) then Ok((o, false))
    else Ok((o["content_path" := Text(tempDir)], true))
  }

  /** Lines 341-342: `(IS_TEMP and remove_temp) or (IS_TEMP and demo)`,
      looking keys up only as far as the short-circuit goes. */
  function RemovesContent(isTemp: bool, o: Options): (r: Result<bool>)
    ensures !isTemp ==> r == Ok(false)
    ensures isTemp && "remove_temp" in o && "demo" in o ==>
      r == Ok(Truthy(o["remove_temp"]) || Truthy(o["demo"]))
  {
    if !isTemp then Ok(false)
    else if "remove_temp" !in o then Err(KeyError)
    else if Truthy(o["remove_temp"]) then Ok(true)
    else if "demo" !in o then Err(KeyError)
    else Ok(Truthy(o["demo"]))
  }

  /** After parsing a command line, the content folder is deleted exactly
      when no content path was given (or it was given empty) and
      `--remove_temp` or `--demo` was given a truthy value. */
  lemma CleanupFromCommandLine(argv: seq<string>, tempDir: string)
    ensures var o := ParseArgv(argv);
      && ChooseContentPath(o, tempDir).Ok?
      && var (o2, isTemp) := ChooseContentPath(o, tempDir).value;
         RemovesContent(isTemp, o2) ==
           Ok(!Truthy(o["content_path"]) && (Truthy(o["remove_temp"]) || Truthy(o["demo"])))
  {
    CommandLineKeys(argv);
  }

  /** `--remove_temp` followed by any word, `false` included, stores that
      word, which is truthy: a temporary folder is then deleted. */
  lemma RemoveTempWordDeletes(pre: seq<string>, v: string)
    requires !IsFlag(v) && Unquote(v) != []
    ensures var o := ParseFrom(ArgvState(MainDefaults, None), pre + ["--" + "remove_temp", v]).options;
      "remove_temp" in o && o["remove_temp"] == Text(Unquote(v)) && RemovesContent(true, o) == Ok(true)
  {
    FlagThenValue(ArgvState(MainDefaults, None), pre, "remove_temp", v);
  }

  /** The word `false` carries no quotes to strip. */
  lemma UnquoteFalse()
    ensures Unquote("false") == "false"
  {
    StripUnchanged("false", {'"'});
    StripUnchanged("false", {'\''});
  }
}
