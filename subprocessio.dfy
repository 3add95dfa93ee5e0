/** The Windows (.NET) side of the subprocess replacement: turning an
    argument list into one command line by the Microsoft C runtime rules,
    splitting the executable off such a line again, the checks `PopenIO`
    makes of its keyword arguments before it starts a process, and
    `check_call`. The process itself, its streams and the threads that
    pump them are not modelled; the exit status of a launched process is a
    parameter. */
module SubprocessIO {
  import opened Wrappers
  import opened PyText
  import opened Seqs

  /** The white space of `String.Trim()` in .NET, which is what `strip()`
      with no argument does to an IronPython string: the characters of
      `Char.IsWhiteSpace` (tab to carriage return, space, next line,
      no-break space, the Zs spaces and the line and paragraph
      separators). */
  const TrimSpace: set<char> := {
    '\t', '\n', '\U{000B}', '\U{000C}', '\r', ' ', '\U{0085}', '\U{00A0}',
    '\U{1680}', '\U{2000}', '\U{2001}', '\U{2002}', '\U{2003}', '\U{2004}',
    '\U{2005}', '\U{2006}', '\U{2007}', '\U{2008}', '\U{2009}', '\U{200A}',
    '\U{2028}', '\U{2029}', '\U{202F}', '\U{205F}', '\U{3000}'}

  /** What `list2cmdline` and `PopenIO` accept as `args`: a bare string is
      one argument. */
  datatype Args = Text(s: string) | Items(items: seq<string>)

  /** The argument list behind `args`. */
  function ArgList(args: Args): seq<string> {
    match args
    case Text(s) => [s]
    case Items(xs) => xs
  }

  /** `n` backslashes. */
  function Backslashes(n: nat): (r: string)
    ensures |r| == n
  {
    if n == 0 then "" else "\\" + Backslashes(n - 1)
  }

  /** Two runs of backslashes make one. */
  lemma {:induction false} BackslashesAdd(m: nat, n: nat)
    ensures Backslashes(m) + Backslashes(n) == Backslashes(m + n)
  {
    if m > 0 {
      BackslashesAdd(m - 1, n);
      Assoc("\\", Backslashes(m - 1), Backslashes(n));
    }
  }

  /** A run of backslashes holds nothing else. */
  lemma {:induction false} BackslashesOnly(n: nat)
    ensures forall i :: 0 <= i < n ==> Backslashes(n)[i] == '\\'
  {
    if n > 0 {
      BackslashesOnly(n - 1);
    }
  }

  /** The length of the run of backslashes that ends `s`. */
  function TrailingBackslashes(s: string): (n: nat)
    ensures n <= |s|
    decreases |s|
  {
    if s != [] && s[|s| - 1] == '\\' then TrailingBackslashes(s[..|s| - 1]) + 1 else 0
  }

  /** Rule 1: an argument holding a space or a tab must be quoted. */
  predicate NeedQuote(arg: string) {
    ' ' in arg || '\t' in arg
  }

  /** Rules 3 to 5 read backwards: a backslash stands for itself, and a
      double quote is written `\"` after as many extra backslashes as
      immediately precede it, so that every run of backslashes in front of
      a quote has odd length and halves back to the original run. */
  function Escape(arg: string): (r: string)
    ensures |r| >= |arg|
    decreases |arg|
  {
    if arg == [] then []
    else
      var front := arg[..|arg| - 1];
      Escape(front) + EscapedChar(arg[|arg| - 1], TrailingBackslashes(front))
  }

  /** The text one character of an argument stands for, after a run of
      `run` backslashes. */
  function EscapedChar(c: char, run: nat): (r: string)
    ensures r != []
  {
    if c == '"' then Backslashes(run) + "\\\"" else [c]
  }

  /** One argument on the command line: quoted when rule 1 asks for it, and
      then with its trailing backslashes doubled so that the closing quote
      is not escaped. */
  function ArgText(arg: string): string {
    if NeedQuote(arg) then "\"" + Escape(arg) + Backslashes(TrailingBackslashes(arg)) + "\""
    else Escape(arg)
  }

  /** `list2cmdline(seq)`: the arguments' texts in order, with a space in
      front of every argument that follows some output. An empty argument
      is not quoted, so it adds nothing but its separator. */
  function CmdLine(args: seq<string>): string
    decreases |args|
  {
    if args == [] then ""
    else
      var line := CmdLine(args[..|args| - 1]);
      (if line == [] then "" else line + " ") + ArgText(args[|args| - 1])
  }

  /** Escaping one more character appends its text. */
  lemma EscapeSnoc(front: string, c: char)
    ensures Escape(front + [c]) == Escape(front) + EscapedChar(c, TrailingBackslashes(front))
    ensures TrailingBackslashes(front + [c]) == if c == '\\' then TrailingBackslashes(front) + 1 else 0
  {
    SnocFront(front, c);
  }

  /** One turn of the inner loop keeps "the text appended so far and the
      pending backslashes make the escaped prefix": a backslash joins the
      pending run, */
  lemma EscapeStepBackslash(out: string, pending: nat, front: string)
    requires out + Backslashes(pending) == Escape(front) && pending == TrailingBackslashes(front)
    ensures out + Backslashes(pending + 1) == Escape(front + ['\\'])
    ensures pending + 1 == TrailingBackslashes(front + ['\\'])
  {
    EscapeSnoc(front, '\\');
    BackslashStep(out, pending);
  }

  /** a quote flushes the run doubled and then an escaped quote, */
  lemma EscapeStepQuote(out: string, pending: nat, front: string)
    requires out + Backslashes(pending) == Escape(front) && pending == TrailingBackslashes(front)
    ensures out + Backslashes(pending * 2) + "\\\"" + Backslashes(0) == Escape(front + ['"'])
    ensures 0 == TrailingBackslashes(front + ['"'])
  {
    EscapeSnoc(front, '"');
    QuoteStep(out, pending);
    NoBackslashes(out + Backslashes(pending * 2) + "\\\"");
  }

  /** and any other character flushes the run as it is. */
  lemma EscapeStepOther(out: string, pending: nat, front: string, c: char)
    requires out + Backslashes(pending) == Escape(front) && pending == TrailingBackslashes(front)
    requires c != '\\' && c != '"'
    ensures out + Backslashes(pending) + [c] + Backslashes(0) == Escape(front + [c])
    ensures 0 == TrailingBackslashes(front + [c])
  {
    EscapeSnoc(front, c);
    assert EscapedChar(c, pending) == [c];
    NoBackslashes(out + Backslashes(pending) + [c]);
  }

  /** An empty run adds nothing. */
  lemma NoBackslashes(x: string)
    ensures x + Backslashes(0) == x
  {
  }

  /** A backslash joins the pending run. */
  lemma BackslashStep(out: string, pending: nat)
    ensures out + Backslashes(pending + 1) == out + Backslashes(pending) + EscapedChar('\\', pending)
  {
    BackslashesAdd(pending, 1);
  }

  /** A quote flushes the pending run doubled, then `\"`. */
  lemma QuoteStep(out: string, pending: nat)
    ensures out + Backslashes(pending * 2) + "\\\"" == out + Backslashes(pending) + EscapedChar('"', pending)
  {
    BackslashesAdd(pending, pending);
    assert out + Backslashes(pending) + (Backslashes(pending) + "\\\"") ==
      out + (Backslashes(pending) + Backslashes(pending)) + "\\\"";
  }

  /** The inner loop of `list2cmdline` over one argument: the text it
      appends to `result`, and the backslashes still held in `bs_buf` when
      the argument ends. */
  method EscapeLoop(arg: string) returns (out: string, pending: nat)
    ensures out + Backslashes(pending) == Escape(arg)
    ensures pending == TrailingBackslashes(arg)
  {
    out, pending := "", 0;
    for j := 0 to |arg|
      invariant out + Backslashes(pending) == Escape(arg[..j])
      invariant pending == TrailingBackslashes(arg[..j])
    {
      var c := arg[j];
      PrefixSnoc(arg, j);
      if c == '\\' {
        EscapeStepBackslash(out, pending, arg[..j]);
        // Don't know yet whether the run must be doubled.
        pending := pending + 1;
      } else if c == '"' {
        EscapeStepQuote(out, pending, arg[..j]);
        out := out + Backslashes(pending * 2) + "\\\"";
        pending := 0;
      } else {
        EscapeStepOther(out, pending, arg[..j], c);
        out := out + Backslashes(pending) + [c];
        pending := 0;
      }
    }
    assert arg[..|arg|] == arg;
  }

  /** Adding one argument to a command line. */
  lemma CmdLineSnoc(args: seq<string>, arg: string)
    ensures CmdLine(args + [arg]) ==
      (if CmdLine(args) == [] then "" else CmdLine(args) + " ") + ArgText(arg)
  {
    SnocFront(args, arg);
  }

  /** The text of an argument from what the inner loop leaves. */
  lemma ArgTextParts(arg: string, out: string, pending: nat)
    requires out + Backslashes(pending) == Escape(arg) && pending == TrailingBackslashes(arg)
    ensures ArgText(arg) ==
      if NeedQuote(arg) then "\"" + (out + Backslashes(pending)) + Backslashes(pending) + "\""
      else out + Backslashes(pending)
  {
  }

  /** `list2cmdline(seq)`, appending to `result` argument by argument. */
  method List2CmdLine(args: Args) returns (line: string)
    ensures line == CmdLine(ArgList(args))
  {
    var items := ArgList(args);
    line := "";
    for k := 0 to |items|
      invariant line == CmdLine(items[..k])
    {
      var arg := items[k];
      PrefixSnoc(items, k);
      CmdLineSnoc(items[..k], arg);
      if line != [] {
        line := line + " ";
      }
      var needQuote := ' ' in arg || '\t' in arg;
      var out, pending := EscapeLoop(arg);
      ArgTextParts(arg, out, pending);
      var text := out + Backslashes(pending);
      if needQuote {
        text := "\"" + text + Backslashes(pending) + "\"";
      }
      line := line + text;
    }
    assert items[..|items|] == items;
  }

  /** Whether the character `c` ends the executable: an unescaped quote
      when the line opened with a quote, a space or tab otherwise. */
  predicate Stops(c: char, escaped: bool, quoted: bool) {
    (c == '"' && !escaped && quoted) || ((c == ' ' || c == '\t') && !quoted)
  }

  /** A backslash flips the escape state; any other character clears it. */
  function NextEscaped(c: char, escaped: bool): bool {
    if c == '\\' then !escaped else false
  }

  /** How many characters of `t` the scanning loop of
      `chop_off_executable` consumes, the stopping character included. */
  function Consumed(t: string, escaped: bool, quoted: bool): (n: nat)
    ensures n <= |t|
    decreases |t|
  {
    if t == [] then 0
    else if Stops(t[0], escaped, quoted) then 1
    else 1 + Consumed(t[1..], NextEscaped(t[0], escaped), quoted)
  }

  /** `chop_off_executable(args)`: TypeError for the empty string,
      IndexError when nothing is left after stripping, and otherwise the
      stripped text up to and including the stop, and the stripped rest. */
  function Chop(args: string): (r: Result<(string, string)>)
    ensures r.Err? <==> Strip(args, TrimSpace) == []
    ensures r.Err? ==> r.error == (if args == [] then TypeError else IndexError)
    ensures r.Ok? ==> var s := Strip(args, TrimSpace); var i := ExecutableEnd(s);
      r.value.0 == Strip(s[..i], TrimSpace) && r.value.1 == Strip(s[i..], TrimSpace)
  {
    if args == [] then Err(TypeError)
    else
      var s := Strip(args, TrimSpace);
      if s == [] then Err(IndexError)
      else
        var i := ExecutableEnd(s);
        Ok((Strip(s[..i], TrimSpace), Strip(s[i..], TrimSpace)))
  }

  /** Where the scan of a stripped, non-empty line stops: after the
      opening quote it looks for the closing one, otherwise for a
      blank. */
  function ExecutableEnd(s: string): (i: nat)
    requires s != []
    ensures 1 <= i <= |s|
  {
    var quoted := s[0] == '"';
    var start := if quoted then 1 else 0;
    start + Consumed(s[start..], false, quoted)
  }

  /** One turn of the scanning loop. */
  lemma ConsumedStep(s: string, i: nat, escaped: bool, quoted: bool)
    requires i < |s|
    ensures Consumed(s[i..], escaped, quoted) ==
      if Stops(s[i], escaped, quoted) then 1 else 1 + Consumed(s[i + 1..], NextEscaped(s[i], escaped), quoted)
  {
    assert s[i..][1..] == s[i + 1..];
  }

  /** `chop_off_executable(args)`, scanning with `i`, `escaped` and
      `got_it`. */
  method ChopOffExecutable(args: string) returns (r: Result<(string, string)>)
    ensures r == Chop(args)
  {
    if args == [] {
      return Err(TypeError);
    }
    var s := Strip(args, TrimSpace);
    if s == [] {
      assert Chop(args) == Err(IndexError);
      return Err(IndexError);
    }
    var i: nat, openingQuote;
    if s[0] == '"' {
      i, openingQuote := 1, true;
    } else {
      i, openingQuote := 0, false;
    }
    ghost var start := i;
    var gotIt, escaped := false, false;
    while !gotIt && i < |s|
      invariant start <= i <= |s|
      invariant gotIt ==> i == start + Consumed(s[start..], false, openingQuote)
      invariant !gotIt ==> start + Consumed(s[start..], false, openingQuote) == i + Consumed(s[i..], escaped, openingQuote)
      decreases |s| - i, !gotIt
    {
      var c := s[i];
      ConsumedStep(s, i, escaped, openingQuote);
      if (c == '"' && !escaped && openingQuote) || ((c == ' ' || c == '\t') && !openingQuote) {
        gotIt := true;
      } else if c == '\\' {
        escaped := !escaped;
      } else {
        // Any other character, a quote inside quotes or a quoted blank.
        escaped := false;
      }
      i := i + 1;
    }
    assert i == ExecutableEnd(s);
    ChopFound(args, s, i);
    r := Ok((Strip(s[..i], TrimSpace), Strip(s[i..], TrimSpace)));
  }

  /** Where the scan stops, `Chop` cuts the stripped line. */
  lemma ChopFound(args: string, s: string, i: nat)
    requires args != [] && s == Strip(args, TrimSpace) && s != [] && i == ExecutableEnd(s)
    ensures Chop(args) == Ok((Strip(s[..i], TrimSpace), Strip(s[i..], TrimSpace)))
  {
  }

  /** Without an opening quote the executable ends at the first space or
      tab, or with the line. */
  lemma {:induction false} UnquotedStop(t: string, escaped: bool)
    ensures var n := Consumed(t, escaped, false);
      && (forall k :: 0 <= k < n - 1 ==> t[k] != ' ' && t[k] != '\t')
      && (n < |t| ==> n > 0 && (t[n - 1] == ' ' || t[n - 1] == '\t'))
      && (t != [] ==> n > 0)
    decreases |t|
  {
    if t != [] && !Stops(t[0], escaped, false) {
      UnquotedStop(t[1..], NextEscaped(t[0], escaped));
    }
  }

  /** The backslashes right before index `j` of `s`, none of them before
      index `lo`. */
  function BackslashRun(s: string, lo: nat, j: nat): nat
    requires lo <= j <= |s|
    decreases j
  {
    if j > lo && s[j - 1] == '\\' then 1 + BackslashRun(s, lo, j - 1) else 0
  }

  /** Index `j` of a line that opens with a quote holds the closing
      quote: a quote after an even run of backslashes. */
  predicate ClosesAt(s: string, j: int) {
    1 <= j < |s| && s[j] == '"' && BackslashRun(s, 1, j) % 2 == 0
  }

  /** On a line that opens with a quote, the executable ends right after
      the first closing quote, or with the line when there is none. */
  lemma QuotedSplit(s: string)
    requires s != [] && s[0] == '"'
    ensures var i := ExecutableEnd(s);
      && (forall j :: 1 <= j < i - 1 ==> !ClosesAt(s, j))
      && ((exists j :: 1 <= j < |s| && ClosesAt(s, j)) ==> i >= 2 && ClosesAt(s, i - 1))
      && (!(exists j :: 1 <= j < |s| && ClosesAt(s, j)) ==> i == |s|)
  {
    ScanQuoted(s, 1, false);
  }

  /** The scan from index `k` inside quotes, `escaped` being the parity of
      the backslashes before `k`, stops at the next closing quote. */
  lemma {:induction false} ScanQuoted(s: string, k: nat, escaped: bool)
    requires 1 <= k <= |s|
    requires escaped == (BackslashRun(s, 1, k) % 2 == 1)
    ensures var n := Consumed(s[k..], escaped, true);
      && (forall j :: k <= j < k + n - 1 ==> !ClosesAt(s, j))
      && ((exists j :: k <= j < |s| && ClosesAt(s, j)) ==> n >= 1 && ClosesAt(s, k + n - 1))
      && (!(exists j :: k <= j < |s| && ClosesAt(s, j)) ==> k + n == |s|)
    decreases |s| - k
  {
    if k < |s| {
      ConsumedStep(s, k, escaped, true);
      if !Stops(s[k], escaped, true) {
        assert !ClosesAt(s, k);
        var next := NextEscaped(s[k], escaped);
        assert next == (BackslashRun(s, 1, k + 1) % 2 == 1);
        ScanQuoted(s, k + 1, next);
        var m := Consumed(s[k + 1..], next, true);
        assert Consumed(s[k..], escaped, true) == 1 + m;
        if exists j :: k <= j < |s| && ClosesAt(s, j) {
          var j :| k <= j < |s| && ClosesAt(s, j);
          assert k + 1 <= j;
          assert m >= 1 && ClosesAt(s, k + 1 + m - 1);
        }
      } else {
        assert ClosesAt(s, k);
      }
    }
  }

  /** On a line that does not open with a quote, the executable ends
      right after the first space or tab, or with the line when there is
      none. */
  lemma UnquotedSplit(s: string)
    requires s != [] && s[0] != '"'
    ensures var i := ExecutableEnd(s);
      && (forall k :: 0 <= k < i - 1 ==> s[k] != ' ' && s[k] != '\t')
      && ((exists k :: 0 <= k < |s| && (s[k] == ' ' || s[k] == '\t')) ==> s[i - 1] == ' ' || s[i - 1] == '\t')
      && (!(exists k :: 0 <= k < |s| && (s[k] == ' ' || s[k] == '\t')) ==> i == |s|)
  {
    assert s[0..] == s;
    UnquotedStop(s, false);
  }

  /** The executable is whatever comes first on the line: the first
      argument's own text. */
  lemma {:induction false} CmdLineStartsWithFirst(args: seq<string>)
    requires args != [] && args[0] != []
    ensures StartsWithText(CmdLine(args), ArgText(args[0]))
    decreases |args|
  {
    if |args| == 1 {
      assert args == [args[0]];
      CmdLineSingle(args[0]);
    } else {
      var front, last := args[..|args| - 1], args[|args| - 1];
      assert args == front + [last] && front[0] == args[0];
      CmdLineStartsWithFirst(front);
      CmdLineAppend(front, last, ArgText(args[0]));
    }
  }

  /** One more argument keeps the opening of a command line. */
  lemma CmdLineAppend(front: seq<string>, last: string, a: string)
    requires StartsWithText(CmdLine(front), a)
    ensures StartsWithText(CmdLine(front + [last]), a)
  {
    CmdLineSnoc(front, last);
    StartsWithTextKept(CmdLine(front), a, ArgText(last));
  }

  /** `line` opens with the non-empty `a`, followed by a space or by its
      end. */
  predicate StartsWithText(line: string, a: string) {
    a != [] && |a| <= |line| && line[..|a|] == a && (|a| < |line| ==> line[|a|] == ' ')
  }

  /** Appending a separator and more text keeps the opening. */
  lemma StartsWithTextKept(line: string, a: string, t: string)
    requires StartsWithText(line, a)
    ensures StartsWithText(line + " " + t, a)
  {
    assert (line + " " + t)[..|line|] == line;
  }

  /** A one-argument command line is that argument's text. */
  lemma CmdLineSingle(arg: string)
    ensures CmdLine([arg]) == ArgText(arg)
  {
    assert [arg][..0] == [];
  }

  /** Every character of an escaped argument comes from the argument or is
      a backslash or quote added by the escaping. */
  lemma {:induction false} EscapeChars(arg: string)
    ensures forall k :: 0 <= k < |Escape(arg)| ==>
      Escape(arg)[k] == '\\' || Escape(arg)[k] == '"' || Escape(arg)[k] in arg
    decreases |arg|
  {
    if arg != [] {
      var front := arg[..|arg| - 1];
      EscapeChars(front);
      BackslashesOnly(TrailingBackslashes(front));
      assert arg == front + [arg[|arg| - 1]];
    }
  }

  /** An escaped argument starts with a backslash when the argument starts
      with a quote, and with the argument's own first character
      otherwise. */
  lemma {:induction false} EscapeFirst(arg: string)
    requires arg != []
    ensures Escape(arg)[0] == if arg[0] == '"' then '\\' else arg[0]
    decreases |arg|
  {
    var front := arg[..|arg| - 1];
    if front != [] {
      EscapeFirst(front);
      assert front[0] == arg[0];
    }
  }

  /** Each backslash flips the escape state. */
  lemma Parity(n: nat, e: bool)
    requires n > 0
    ensures (if (n - 1) % 2 == 1 then !(!e) else !e) == (if n % 2 == 1 then !e else e)
  {
  }

  /** Scanning a run of backslashes inside quotes flips the escape state
      once per backslash and never stops. */
  lemma {:induction false} ScanBackslashes(n: nat, x: string, escaped: bool)
    ensures Consumed(Backslashes(n) + x, escaped, true) ==
      n + Consumed(x, if n % 2 == 1 then !escaped else escaped, true)
    decreases n
  {
    if n > 0 {
      BackslashesCons(n, x);
      ConsumedCons('\\', Backslashes(n - 1) + x, escaped, true);
      ScanBackslashes(n - 1, x, !escaped);
      Parity(n, escaped);
    } else {
      assert Backslashes(n) + x == x;
    }
  }

  /** A run of backslashes is one backslash and a shorter run. */
  lemma BackslashesCons(n: nat, x: string)
    requires n > 0
    ensures Backslashes(n) + x == "\\" + (Backslashes(n - 1) + x)
  {
    Assoc("\\", Backslashes(n - 1), x);
  }

  /** The scan over a text that starts with `c`. */
  lemma ConsumedCons(c: char, y: string, escaped: bool, quoted: bool)
    ensures Consumed([c] + y, escaped, quoted) ==
      if Stops(c, escaped, quoted) then 1 else 1 + Consumed(y, NextEscaped(c, escaped), quoted)
  {
    DropHead(c, y);
  }

  /** Scanning the text of one escaped character inside quotes, entered in
      the escape state its preceding backslash run leaves, never stops. */
  lemma ScanEscapedChar(c: char, run: nat, x: string)
    ensures Consumed(EscapedChar(c, run) + x, run % 2 == 1, true) ==
      |EscapedChar(c, run)| + Consumed(x, c == '\\' && run % 2 == 0, true)
  {
    if c == '"' {
      var y := "\\\"" + x;
      assert EscapedChar(c, run) + x == Backslashes(run) + y;
      ScanBackslashes(run, y, run % 2 == 1);
      assert y == "\\" + ("\"" + x);
      ConsumedCons('\\', "\"" + x, false, true);
      ConsumedCons('"', x, true, true);
    } else {
      ConsumedCons(c, x, run % 2 == 1, true);
    }
  }

  /** Inside quotes the scan runs over an escaped argument without
      stopping and leaves the escape state its trailing backslashes give:
      no quote of the argument ends the executable early. */
  lemma {:induction false} ScanEscaped(arg: string, x: string)
    ensures Consumed(Escape(arg) + x, false, true) ==
      |Escape(arg)| + Consumed(x, TrailingBackslashes(arg) % 2 == 1, true)
    decreases |arg|
  {
    if arg != [] {
      var front := arg[..|arg| - 1];
      var c := arg[|arg| - 1];
      var run := TrailingBackslashes(front);
      var ec := EscapedChar(c, run);
      assert arg == front + [c];
      EscapeSnoc(front, c);
      ScanEscaped(front, ec + x);
      ScanEscapedChar(c, run, x);
      ScanJoin(Escape(front), ec, x, run % 2 == 1, c == '\\' && run % 2 == 0);
      ScanEscapedClose(Escape(arg), Escape(front), ec, x, TrailingBackslashes(arg), run, c);
    } else {
      assert Escape(arg) + x == x;
    }
  }

  /** The last step of `ScanEscaped`: the escape state after the escaped
      argument is the parity of its trailing backslashes. */
  lemma ScanEscapedClose(e: string, p: string, q: string, x: string, t: nat, run: nat, c: char)
    requires e == p + q
    requires t == if c == '\\' then run + 1 else 0
    requires Consumed(p + q + x, false, true) == |p + q| + Consumed(x, c == '\\' && run % 2 == 0, true)
    ensures Consumed(e + x, false, true) == |e| + Consumed(x, t % 2 == 1, true)
  {
  }

  /** Two stretches the scan runs over without stopping make one. */
  lemma ScanJoin(p: string, q: string, x: string, mid: bool, after: bool)
    requires Consumed(p + (q + x), false, true) == |p| + Consumed(q + x, mid, true)
    requires Consumed(q + x, mid, true) == |q| + Consumed(x, after, true)
    ensures Consumed(p + q + x, false, true) == |p + q| + Consumed(x, after, true)
  {
    Assoc(p, q, x);
  }

  /** Stripping a line that opens with `a` keeps `a` in front when `a`
      neither starts nor ends with whitespace. */
  lemma StrippedLine(line: string, a: string)
    requires StartsWithText(line, a)
    requires a[0] !in TrimSpace && a[|a| - 1] !in TrimSpace
    ensures StartsWithText(Strip(line, TrimSpace), a)
  {
    assert line[0] == a[0];
    assert LStrip(line, TrimSpace) == line;
    assert line[|a| - 1] == a[|a| - 1];
  }

  /** Splitting the executable off a command line built from a list gives
      back the first argument's text, quotes and escapes included, as long
      as that argument is non-empty and holds no whitespace other than
      spaces and tabs. This is what `PopenIO` relies on when it is given a
      list and no executable. */
  lemma ChopCmdLine(args: seq<string>)
    requires args != [] && args[0] != []
    requires forall c :: c in args[0] && c in TrimSpace ==> c == ' ' || c == '\t'
    ensures Chop(CmdLine(args)).Ok?
    ensures Chop(CmdLine(args)).value.0 == CmdLine([args[0]])
  {
    CmdLineSingle(args[0]);
    CmdLineStartsWithFirst(args);
    ChopOpening(CmdLine(args), args[0]);
  }

  /** `strip()` trims .NET white space, not only ASCII: a line that opens
      with a no-break space (or any other such character) before a word, a
      space and more text chops to that word and that text. */
  lemma LeadingTrimSpace(c: char, a: string, rest: string)
    requires c in TrimSpace
    requires a != [] && a[0] != '"' && forall k :: 0 <= k < |a| ==> a[k] !in TrimSpace
    requires rest != [] && rest[0] !in TrimSpace && rest[|rest| - 1] !in TrimSpace
    ensures Chop([c] + (a + " " + rest)) == Ok((a, rest))
  {
    var s := a + " " + rest;
    StripLeadingWord(c, a, rest);
    WordThenRest(a, rest);
    ChopFound([c] + s, s, |a| + 1);
  }

  lemma StripLeadingWord(c: char, a: string, rest: string)
    requires c in TrimSpace
    requires a != [] && a[0] !in TrimSpace
    requires rest != [] && rest[|rest| - 1] !in TrimSpace
    ensures Strip([c] + (a + " " + rest), TrimSpace) == a + " " + rest
  {
    var s := a + " " + rest;
    assert s[0] == a[0] && s[|s| - 1] == rest[|rest| - 1];
    StripLeading(c, s, TrimSpace);
  }

  /** A word, a space and more text: the scan stops after the space. */
  lemma WordThenRest(a: string, rest: string)
    requires a != [] && a[0] != '"' && forall k :: 0 <= k < |a| ==> a[k] !in TrimSpace
    requires rest != [] && rest[0] !in TrimSpace && rest[|rest| - 1] !in TrimSpace
    ensures var s := a + " " + rest;
      && ExecutableEnd(s) == |a| + 1
      && Strip(s[..|a| + 1], TrimSpace) == a
      && Strip(s[|a| + 1..], TrimSpace) == rest
  {
    var s := a + " " + rest;
    assert StartsWithText(s, a) by {
      assert s[..|a|] == a && s[|a|] == ' ';
    }
    assert ExecutableEnd(s) == |a| + 1 by {
      UnquotedExecutableEnd(s, a);
      PrefixBlankFree(s, a);
      BlankFreeStop(s, |a|);
    }
    UnquotedEndAt(s, a);
    assert s[|a| + 1..] == rest;
    StripUnchanged(rest, TrimSpace);
  }

  /** A line opening with an argument's text gives that text back as its
      executable. */
  lemma ChopOpening(line: string, a0: string)
    requires a0 != [] && StartsWithText(line, ArgText(a0))
    requires forall c :: c in a0 && c in TrimSpace ==> c == ' ' || c == '\t'
    ensures Chop(line).Ok? && Chop(line).value.0 == ArgText(a0)
  {
    var a := ArgText(a0);
    if NeedQuote(a0) {
      assert a[0] == '"' && a[|a| - 1] == '"';
      StrippedLine(line, a);
      QuotedEnd(Strip(line, TrimSpace), a0);
    } else {
      UnquotedText(a0);
      StrippedLine(line, a);
      UnquotedEnd(Strip(line, TrimSpace), a0);
    }
    ChopAt(line, a);
  }

  /** `Chop` in terms of the stripped line. */
  lemma ChopAt(line: string, a: string)
    requires var s := Strip(line, TrimSpace); s != [] && Strip(s[..ExecutableEnd(s)], TrimSpace) == a
    ensures Chop(line).Ok? && Chop(line).value.0 == a
  {
  }

  /** The text of an argument written without quotes holds no whitespace
      and does not start with a quote. */
  lemma UnquotedText(a0: string)
    requires a0 != [] && !NeedQuote(a0)
    requires forall c :: c in a0 && c in TrimSpace ==> c == ' ' || c == '\t'
    ensures var a := ArgText(a0); a != [] && a[0] != '"'
    ensures forall k :: 0 <= k < |ArgText(a0)| ==> ArgText(a0)[k] !in TrimSpace
  {
    EscapeChars(a0);
    EscapeFirst(a0);
  }

  /** A stripped line opening with a quoted argument's text: the scan
      stops right after its closing quote. */
  lemma QuotedEnd(s: string, a0: string)
    requires NeedQuote(a0) && StartsWithText(s, ArgText(a0))
    requires ArgText(a0)[0] == '"' && ArgText(a0)[|ArgText(a0)| - 1] == '"'
    ensures ExecutableEnd(s) == |ArgText(a0)|
    ensures Strip(s[..ExecutableEnd(s)], TrimSpace) == ArgText(a0)
  {
    var a, e, t := ArgText(a0), Escape(a0), TrailingBackslashes(a0);
    var x := Backslashes(t) + ("\"" + s[|a|..]);
    ScanEscaped(a0, x);
    QuotedEndAt(s, a, e, t);
  }

  /** `QuotedEnd` over the parts of the quoted text. */
  lemma QuotedEndAt(s: string, a: string, e: string, t: nat)
    requires a == "\"" + e + Backslashes(t) + "\"" && StartsWithText(s, a)
    requires a[0] == '"' && a[|a| - 1] == '"'
    requires var x := Backslashes(t) + ("\"" + s[|a|..]);
      Consumed(e + x, false, true) == |e| + Consumed(x, t % 2 == 1, true)
    ensures ExecutableEnd(s) == |a|
    ensures Strip(s[..ExecutableEnd(s)], TrimSpace) == a
  {
    var rest := s[|a|..];
    QuotedLineParts(s, a, e, t);
    ScanBackslashes(t, "\"" + rest, t % 2 == 1);
    ClosingQuote(rest);
    assert s[..|a|] == a;
    QuotedUnchanged(a);
  }

  /** Stripping leaves a quoted text alone. */
  lemma QuotedUnchanged(a: string)
    requires a != [] && a[0] == '"' && a[|a| - 1] == '"'
    ensures Strip(a, TrimSpace) == a
  {
    StripUnchanged(a, TrimSpace);
  }

  /** After the opening quote comes the escaped argument, its doubled
      trailing backslashes, the closing quote and the rest. */
  lemma QuotedLineParts(s: string, a: string, e: string, t: nat)
    requires a == "\"" + e + Backslashes(t) + "\"" && StartsWithText(s, a)
    ensures s[1..] == e + (Backslashes(t) + ("\"" + s[|a|..]))
  {
    var q, rest := "\"", s[|a|..];
    calc {
      s[1..];
      { SplitAt(s, |a|); }
      (a + rest)[1..];
      { DropConcat(a, rest, 1); }
      a[1..] + rest;
      { Regroup(q, e, Backslashes(t), q);
        DropHead('"', e + Backslashes(t) + q); }
      e + Backslashes(t) + q + rest;
      { Reassociate(e, Backslashes(t), q, rest); }
      e + (Backslashes(t) + (q + rest));
    }
  }

  /** An unescaped quote ends the scan inside quotes. */
  lemma ClosingQuote(rest: string)
    ensures Consumed("\"" + rest, false, true) == 1
  {
  }

  /** A stripped line opening with an unquoted argument's text: the scan
      stops at the space after it, or at the end. */
  lemma UnquotedEnd(s: string, a0: string)
    requires !NeedQuote(a0) && StartsWithText(s, ArgText(a0))
    requires ArgText(a0)[0] != '"'
    requires forall k :: 0 <= k < |ArgText(a0)| ==> ArgText(a0)[k] !in TrimSpace
    ensures Strip(s[..ExecutableEnd(s)], TrimSpace) == ArgText(a0)
  {
    UnquotedEndAt(s, ArgText(a0));
  }

  /** `UnquotedEnd` for any opening text without whitespace or a leading
      quote. */
  lemma UnquotedEndAt(s: string, a: string)
    requires StartsWithText(s, a) && a[0] != '"'
    requires forall k :: 0 <= k < |a| ==> a[k] !in TrimSpace
    ensures Strip(s[..ExecutableEnd(s)], TrimSpace) == a
  {
    UnquotedExecutableEnd(s, a);
    PrefixBlankFree(s, a);
    BlankFreeStop(s, |a|);
    PlainUnchanged(a);
    if |a| < |s| {
      TextThenSpace(s, a);
    } else {
      assert s[..|a|] == a;
    }
  }

  /** The text a line starts with, and the space after it. */
  lemma TextThenSpace(s: string, a: string)
    requires StartsWithText(s, a) && |a| < |s|
    ensures s[..|a| + 1] == a + " "
  {
    PrefixSnoc(s, |a|);
  }

  /** Without an opening quote the scan starts at the first character. */
  lemma UnquotedExecutableEnd(s: string, a: string)
    requires StartsWithText(s, a) && a[0] != '"'
    ensures ExecutableEnd(s) == Consumed(s, false, false)
  {
    assert s[0] == a[0];
    assert s[0..] == s;
  }

  /** A line that starts with a blank-free text is blank-free that far. */
  lemma PrefixBlankFree(s: string, a: string)
    requires StartsWithText(s, a)
    requires forall k :: 0 <= k < |a| ==> a[k] !in TrimSpace
    ensures forall k :: 0 <= k < |a| ==> s[k] !in TrimSpace
  {
    forall k | 0 <= k < |a|
      ensures s[k] !in TrimSpace
    {
      assert s[k] == s[..|a|][k];
    }
  }

  /** Stripping leaves a text without whitespace alone, and takes a space
      after it off. */
  lemma PlainUnchanged(a: string)
    requires a != [] && forall k :: 0 <= k < |a| ==> a[k] !in TrimSpace
    ensures Strip(a, TrimSpace) == a && Strip(a + " ", TrimSpace) == a
  {
    StripUnchanged(a, TrimSpace);
    StripTrailing(a, ' ', TrimSpace);
  }

  /** Without an opening quote, a line whose first `n` characters hold no
      space or tab and are followed by a space or the end is scanned up to
      that space. */
  lemma {:induction false} BlankFreeStop(u: string, n: nat)
    requires n <= |u|
    requires forall k :: 0 <= k < n ==> u[k] !in TrimSpace
    requires n < |u| ==> u[n] == ' '
    ensures Consumed(u, false, false) == if n == |u| then n else n + 1
  {
    UnquotedStop(u, false);
  }

  /** The `bufsize` argument: None, an integer, or a value of another
      type. */
  datatype BufSize = NoBufSize | IntBufSize(n: int) | OtherBufSize

  /** The keyword arguments of `PopenIO` that decide its checks and the
      start information. A truthy `preexec_fn` or `startupinfo` is `true`;
      `executable` is None or a string, and the empty string is as falsy
      as None. */
  datatype PopenArgs = PopenArgs(
    args: Args,
    bufsize: BufSize,
    executable: Option<string>,
    stderrToStdout: bool,
    preexecFn: bool,
    shell: bool,
    universalNewlines: bool,
    startupinfo: bool,
    creationflags: int)

  /** What the process is started with: `StartInfo.FileName`,
      `StartInfo.Arguments`, and the stored `_bufsize`. */
  datatype Launch = Launch(fileName: string, arguments: string, bufsize: int)

  /** The buffer size `PopenIO` keeps: None means 0 and -1 the system
      default of 65536; any other type is refused. */
  function Buffering(b: BufSize): (r: Result<int>)
    ensures r.Err? <==> b.OtherBufSize?
    ensures r.Err? ==> r.error == TypeError
    ensures b.NoBufSize? ==> r == Ok(0)
    ensures b.IntBufSize? ==> r == Ok(if b.n == -1 then 65536 else b.n)
  {
    match b
    case NoBufSize => Ok(0)
    case IntBufSize(n) => if n == -1 then Ok(65536) else Ok(n)
    case OtherBufSize => Err(TypeError)
  }

  /** The command line `PopenIO` passes on: a string as it is, a list
      through `list2cmdline`. */
  function CommandText(args: Args): (r: string)
    ensures args.Text? ==> r == args.s
  {
    match args
    case Text(s) => s
    case Items(_) => CmdLine(ArgList(args))
  }

  /** Whether a string argument counts as given. */
  predicate Truthy(s: Option<string>) {
    s.Some? && s.value != []
  }

  /** `PopenIO.__init__` up to `p.Start()`: the argument checks in the
      order of the checks in `PopenIO.__init__`, then the file name and arguments of the process.
      `comspec` is the `COMSPEC` environment variable. */
  function Popen(p: PopenArgs, comspec: Option<string>): (r: Result<Launch>)
    ensures p.preexecFn ==> r == Err(ValueError)
    ensures !p.preexecFn && p.universalNewlines ==> r == Err(NotImplementedError)
    ensures !p.preexecFn && !p.universalNewlines && (p.startupinfo || p.creationflags != 0) ==> r == Err(ValueError)
    ensures !p.preexecFn && !p.universalNewlines && !p.startupinfo && p.creationflags == 0 ==>
      (p.stderrToStdout ==> r == Err(NotImplementedError)) &&
      (!p.stderrToStdout && p.bufsize.OtherBufSize? ==> r == Err(TypeError))
    ensures r.Ok? ==> Ok(r.value.bufsize) == Buffering(p.bufsize)
    ensures r.Ok? && p.shell ==> r.value.arguments == "/C " + CommandText(p.args)
    ensures r.Ok? && !p.shell && Truthy(p.executable) ==>
      r.value == Launch(p.executable.value, CommandText(p.args), r.value.bufsize)
  {
    if p.preexecFn then Err(ValueError)
    else if p.universalNewlines then Err(NotImplementedError)
    else if p.startupinfo then Err(ValueError)
    else if p.creationflags != 0 then Err(ValueError)
    else if p.stderrToStdout then Err(NotImplementedError)
    else if p.bufsize.OtherBufSize? then Err(TypeError)
    else
      var bufsize := Buffering(p.bufsize).value;
      var args := CommandText(p.args);
      if p.shell then
        if Truthy(p.executable) then Ok(Launch(p.executable.value, "/C " + args, bufsize))
        else if comspec.None? then Err(KeyError)
        else Ok(Launch(comspec.value, "/C " + args, bufsize))
      else if Truthy(p.executable) then Ok(Launch(p.executable.value, args, bufsize))
      else
        match Chop(args)
        case Err(e) => Err(e)
        case Ok((exe, rest)) => Ok(Launch(exe, rest, bufsize))
  }

  /** Given a list and no executable, the process runs the first
      argument's command-line text: the executable `list2cmdline` wrote is
      the one `chop_off_executable` finds again. */
  lemma PopenRunsFirstArgument(p: PopenArgs, comspec: Option<string>)
    requires p.args.Items? && p.args.items != [] && p.args.items[0] != []
    requires forall c :: c in p.args.items[0] && c in TrimSpace ==> c == ' ' || c == '\t'
    requires !p.preexecFn && !p.universalNewlines && !p.startupinfo && p.creationflags == 0
    requires !p.stderrToStdout && !p.bufsize.OtherBufSize? && !p.shell && !Truthy(p.executable)
    ensures Popen(p, comspec).Ok?
    ensures Popen(p, comspec).value.fileName == ArgText(p.args.items[0])
  {
    var line := CmdLine(p.args.items);
    assert CommandText(p.args) == line;
    ChopCmdLine(p.args.items);
    CmdLineSingle(p.args.items[0]);
    PopenChops(p, comspec, Chop(line).value);
  }

  /** With the checks passed, no shell and no executable, the process is
      what `chop_off_executable` splits off the command line. */
  lemma PopenChops(p: PopenArgs, comspec: Option<string>, chopped: (string, string))
    requires !p.preexecFn && !p.universalNewlines && !p.startupinfo && p.creationflags == 0
    requires !p.stderrToStdout && !p.bufsize.OtherBufSize? && !p.shell && !Truthy(p.executable)
    requires Chop(CommandText(p.args)) == Ok(chopped)
    ensures Popen(p, comspec).Ok? && Popen(p, comspec).value.fileName == chopped.0
  {
  }

  /** `PopenIO.__init__` as straight-line checks, up to starting the
      process. */
  method PopenIO(p: PopenArgs, comspec: Option<string>) returns (r: Result<Launch>)
    ensures r == Popen(p, comspec)
  {
    if p.preexecFn {
      return Err(ValueError);
    }
    if p.universalNewlines {
      return Err(NotImplementedError);
    }
    if p.startupinfo || p.creationflags != 0 {
      return Err(ValueError);
    }
    if p.stderrToStdout {
      return Err(NotImplementedError);
    }
    var bufsize;
    match p.bufsize {
      case NoBufSize => bufsize := 0;
      case OtherBufSize => return Err(TypeError);
      case IntBufSize(n) => bufsize := if n == -1 then 65536 else n;
    }
    var args;
    match p.args {
      case Text(s) => args := s;
      case Items(_) => args := List2CmdLine(p.args);
    }
    var executable := p.executable;
    if p.shell {
      if !Truthy(executable) {
        if comspec.None? {
          return Err(KeyError);
        }
        executable := comspec;
      }
      return Ok(Launch(executable.value, "/C " + args, bufsize));
    }
    if !Truthy(executable) {
      var chopped := ChopOffExecutable(args);
      if chopped.Err? {
        return Err(chopped.error);
      }
      return Ok(Launch(chopped.value.0, chopped.value.1, bufsize));
    }
    r := Ok(Launch(executable.value, args, bufsize));
  }

  /** `check_call(args, ...)`: the errors of `PopenIO`, then 0 when the
      process exits with status 0 and CalledProcessError carrying the
      status and the arguments otherwise. `exitStatus` stands for what
      `wait()` returns. */
  function CheckCall(p: PopenArgs, comspec: Option<string>, exitStatus: int): (r: Result<int>)
    ensures r == Ok(0) <==> Popen(p, comspec).Ok? && exitStatus == 0
    ensures r.Ok? ==> r.value == 0
    ensures r.Err? && r.error.CalledProcessError? <==> Popen(p, comspec).Ok? && exitStatus != 0
    ensures r.Err? && r.error.CalledProcessError? ==>
      r.error.returncode == exitStatus && r.error.cmd == ArgList(p.args)
    ensures Popen(p, comspec).Err? ==> r == Err(Popen(p, comspec).error)
  {
    match Popen(p, comspec)
    case Err(e) => Err(e)
    case Ok(_) => if exitStatus != 0 then Err(CalledProcessError(exitStatus, ArgList(p.args))) else Ok(0)
  }

  /** An empty argument leaves no trace but its separator. */
  lemma EmptyArgumentVanishes()
    ensures CmdLine(["", "a"]) == "a"
    ensures CmdLine(["a", ""]) == "a "
  {
    EmptyFirst();
    EmptyLast();
  }

  lemma EmptyFirst()
    ensures CmdLine(["", "a"]) == "a"
  {
    CmdLineSingle("");
    assert Escape("a") == "a" by {
      assert "a"[..0] == [];
    }
    assert ["", "a"][..1] == [""];
  }

  lemma EmptyLast()
    ensures CmdLine(["a", ""]) == "a "
  {
    CmdLineSingle("a");
    assert Escape("a") == "a" by {
      assert "a"[..0] == [];
    }
    assert ["a", ""][..1] == ["a"];
  }

  /** An argument is quoted exactly when it holds a space or a tab. */
  lemma QuotedIffBlank(arg: string)
    requires arg != []
    ensures ArgText(arg)[0] == '"' <==> NeedQuote(arg)
  {
    EscapeFirst(arg);
  }
}
