/** The hand-written argument loops of the four download commands of
    `ghe`: `dlx`, `dl` (also spelled `get` and `fetch-file`), `dl-dir` and
    `dl-release`.

    Each loop walks `args` from index 1 (index 0 is the command word),
    skips empty arguments, lets a value-taking flag read the next argument
    with `args[++i]`, sets fields of an options record and collects the
    bare (non-dash) arguments as URLs.

    The loops are specified position by position: `Consumed` says which
    positions are read as a flag's value, `Walk` folds the effect of every
    other position over the options, and `FirstStop` finds where `-f`
    ends the `dlx`/`dl` loop early. Each loop method is proved equal to
    that specification, and the lemmas state what it means. */
module DownloadArgs {
  import opened Wrappers
  import opened Strings

  datatype Command = Dlx | Dl | DlDir | DlRelease

  /** `args[k]`; reading past the end gives `undefined`. */
  function Arg(args: seq<string>, k: nat): Option<string> {
    if k < |args| then Some(args[k]) else None
  }

  function Upto(j: nat, n: nat): nat {
    if j < n then j else n
  }

  /** The flags after which a command's loop reads `args[++i]`, listed
      in the order its loop tests them. */
  function ValueFlags(cmd: Command): set<string> {
    match cmd
    case Dlx =>
      {"-o", "--output", "-d", "--dir", "-f", "--file-list", "--user-agent", "-A", "--header", "-H"}
    case Dl =>
      {"-o", "--output", "-d", "--dir", "-f", "--file-list", "--pattern", "--glob", "--exclude",
       "--branch", "-b", "--tag", "-t", "--commit", "-c", "--user-agent", "-A", "--header", "-H"}
    case DlDir =>
      {"-d", "--dir", "--depth", "--branch", "-b", "--pattern", "--exclude"}
    case DlRelease =>
      {"--asset", "--version", "-v", "-d", "--dir"}
  }

  predicate TakesValue(cmd: Command, a: string) {
    a in ValueFlags(cmd)
  }

  /** The `dlx` table read in the order of the `dlx` loop's tests. */
  lemma DlxTableInTestOrder(a: string)
    ensures TakesValue(Dlx, a) ==
      if a == "" then false
      else if a == "-o" || a == "--output" then true
      else if a == "-d" || a == "--dir" then true
      else if a == "-f" || a == "--file-list" then true
      else if a == "--info" || a == "--progress" || a == "--overwrite" || a == "--no-redirect" then false
      else a == "--user-agent" || a == "-A" || a == "--header" || a == "-H"
  {
  }

  /** The `dl` table read in the order of the `dl` loop's tests. */
  lemma DlTableInTestOrder(a: string)
    ensures TakesValue(Dl, a) ==
      if a == "" then false
      else if a == "-o" || a == "--output" then true
      else if a == "-O" then false
      else if a == "-d" || a == "--dir" then true
      else if a == "--preserve-path" then false
      else if a == "-f" || a == "--file-list" then true
      else if a == "--pattern" || a == "--glob" || a == "--exclude" || a == "--branch" || a == "-b" ||
              a == "--tag" || a == "-t" || a == "--commit" || a == "-c" then true
      else if a == "--info" || a == "--progress" || a == "--overwrite" || a == "--no-redirect" then false
      else a == "--user-agent" || a == "-A" || a == "--header" || a == "-H"
  {
  }

  /** The `dl-dir` table read in the order of the `dl-dir` loop's tests. */
  lemma DirTableInTestOrder(a: string)
    ensures TakesValue(DlDir, a) ==
      if a == "" then false
      else if a == "-d" || a == "--dir" then true
      else if a == "--depth" then true
      else if a == "--branch" || a == "-b" then true
      else a == "--pattern" || a == "--exclude"
  {
  }

  /** The `dl-release` table read in the order of the `dl-release` loop's
      tests. */
  lemma ReleaseTableInTestOrder(a: string)
    ensures TakesValue(DlRelease, a) ==
      if a == "" then false
      else a == "--asset" || a == "--version" || a == "-v" || a == "-d" || a == "--dir"
  {
  }

  /** Position `k` is read as the value of the flag at `k - 1`: that flag
      takes a value and was itself not read as a value. */
  predicate Consumed(cmd: Command, args: seq<string>, k: nat)
    decreases k
  {
    2 <= k && k - 1 < |args| && TakesValue(cmd, args[k - 1]) && !Consumed(cmd, args, k - 1)
  }

  /** Position `k` is one the loop's index `i` stops at. */
  predicate Scanned(cmd: Command, args: seq<string>, k: nat) {
    1 <= k < |args| && !Consumed(cmd, args, k)
  }

  /** The position the loop moves to from a scanned position `i`. */
  function Next(cmd: Command, args: seq<string>, i: nat): nat
    requires i < |args|
  {
    if TakesValue(cmd, args[i]) then i + 2 else i + 1
  }

  /** An argument the loops take as a URL: non-empty and not `-`-led. */
  predicate IsUrlArg(a: string) {
    a != "" && !StartsWith(a, "-")
  }

  /** The effect of every scanned position before `n`, in order, each with
      the argument after it as the value it may read. */
  function Walk<S>(cmd: Command, args: seq<string>, n: nat, init: S,
                   step: (S, string, Option<string>) -> S): S
    requires n <= |args|
  {
    if n <= 1 then init
    else
      var st := Walk(cmd, args, n - 1, init, step);
      if Consumed(cmd, args, n - 1) then st else step(st, args[n - 1], Arg(args, n))
  }

  /** Reference definition of the URL list: the URL-like arguments at
      scanned positions before `n`, in input order. */
  function BareArgs(cmd: Command, args: seq<string>, n: nat): seq<string>
    requires n <= |args|
  {
    if n <= 1 then []
    else
      var prev := BareArgs(cmd, args, n - 1);
      if Scanned(cmd, args, n - 1) && IsUrlArg(args[n - 1]) then prev + [args[n - 1]] else prev
  }

  /** The last element of `xs`, or `d` when there is none. */
  function LastOr(xs: seq<string>, d: string): string {
    if xs == [] then d else xs[|xs| - 1]
  }

  /** Moving from scanned position `i` to `Next(i)` applies exactly the
      step for `args[i]`: the value it reads is skipped, and the position
      reached is scanned again. */
  lemma WalkAdvance<S>(cmd: Command, args: seq<string>, i: nat, init: S,
                           step: (S, string, Option<string>) -> S)
    requires Scanned(cmd, args, i)
    ensures Next(cmd, args, i) < |args| ==> !Consumed(cmd, args, Next(cmd, args, i))
    ensures Walk(cmd, args, Upto(Next(cmd, args, i), |args|), init, step)
         == step(Walk(cmd, args, i, init, step), args[i], Arg(args, i + 1))
  {
    if TakesValue(cmd, args[i]) && i + 1 < |args| {
      assert Consumed(cmd, args, i + 1);
    }
  }

  /** A loop without an early exit, written as a recursive function of
      the loop index and the state so far. */
  function Run<S>(cmd: Command, args: seq<string>, i: nat, st: S,
                  step: (S, string, Option<string>) -> S): S
    decreases |args| - i
  {
    if i >= |args| then st
    else Run(cmd, args, Next(cmd, args, i), step(st, args[i], Arg(args, i + 1)), step)
  }

  /** One turn of the loop: a file list with a value ends it, anything
      else steps to the next argument. */
  lemma FetchLoopTurn(cmd: Command, args: seq<string>, i: nat, st: FetchState)
    requires i < |args|
    ensures (args[i] == "-f" || args[i] == "--file-list") && Truthy(Arg(args, i + 1)) ==>
      FetchLoop(cmd, args, i, st) == FileList(args[i + 1], st.opts)
    ensures !((args[i] == "-f" || args[i] == "--file-list") && Truthy(Arg(args, i + 1))) ==>
      FetchLoop(cmd, args, i, st) == FetchLoop(cmd, args, Next(cmd, args, i), FetchStep(cmd)(st, args[i], Arg(args, i + 1)))
  {
  }

  /** Run from any position the loop can reach, with the state the
      positions before it produce, such a loop ends in the fold of all
      positions. */
  lemma {:induction false} RunMeaning<S>(cmd: Command, args: seq<string>, i: nat, init: S,
                                         step: (S, string, Option<string>) -> S)
    requires 1 <= i
    requires i < |args| ==> !Consumed(cmd, args, i)
    ensures Run(cmd, args, i, Walk(cmd, args, Upto(i, |args|), init, step), step)
         == Walk(cmd, args, |args|, init, step)
    decreases |args| - i
  {
    if i < |args| {
      WalkAdvance(cmd, args, i, init, step);
      RunMeaning(cmd, args, Next(cmd, args, i), init, step);
    }
  }

  // ---------------------------------------------------------------
  // dlx and dl

  /** `options.output`: never set, set to `null` by `-O` (keep the
      original name), or set to a name. */
  datatype OutputName = Unset | KeepOriginal | Named(name: string)

  function OutputOf(v: Option<string>): OutputName {
    if v.Some? then Named(v.value) else Unset
  }

  /** The options `dlx` and `dl` gather, starting from the empty object;
      `dlx` never sets the fields that only `dl` knows. A switch the loop
      only ever sets to `true` is `false` while it is unset;
      `followRedirects`, which `--no-redirect` sets to `false`, is `None`
      while it is unset. `headers` is keyed by trimmed header name. */
  datatype FetchOptions = FetchOptions(
    output: OutputName,
    outputDir: Option<string>,
    preservePath: bool,
    pattern: Option<string>,
    exclude: Option<string>,
    branch: Option<string>,
    tag: Option<string>,
    commit: Option<string>,
    showInfo: bool,
    showProgress: bool,
    overwrite: bool,
    followRedirects: Option<bool>,
    userAgent: Option<string>,
    headers: map<string, string>)

  const NoFetchOptions := FetchOptions(Unset, None, false, None, None, None, None, None,
                                       false, false, false, None, None, map[])

  datatype FetchState = FetchState(opts: FetchOptions, urls: seq<string>)

  const FetchStart := FetchState(NoFetchOptions, [])

  /** A `-H` value added to the header map: split at the first colon;
      nothing is added when the value is absent or empty or when the part
      before the colon is empty; otherwise the trimmed part before the
      colon maps to the trimmed rest. */
  function AddHeader(headers: map<string, string>, header: Option<string>): map<string, string> {
    if !Truthy(header) then headers
    else
      var (key, rest) := SplitFirst(header.value, ':');
      if key == "" then headers else headers[Trim(key) := Trim(rest)]
  }

  /** What one scanned argument `a` does in the `dlx` or `dl` loop, `v`
      being the argument after it. A `-f` with a value ends the loop and is
      handled by `FirstStop`; here it changes nothing. */
  function FetchStep(cmd: Command): (FetchState, string, Option<string>) -> FetchState {
    if cmd == Dl then DlStep else DlxStep
  }

  /** The tests the `dlx` and `dl` loops share after their own flags: the
      switches, `-A`, `-H` and the URLs. */
  function FetchTailStep(st: FetchState, a: string, v: Option<string>): FetchState {
    var o := st.opts;
    if a == "--info" then st.(opts := o.(showInfo := true))
    else if a == "--progress" then st.(opts := o.(showProgress := true))
    else if a == "--overwrite" then st.(opts := o.(overwrite := true))
    else if a == "--no-redirect" then st.(opts := o.(followRedirects := Some(false)))
    else if a == "--user-agent" || a == "-A" then st.(opts := o.(userAgent := v))
    else if a == "--header" || a == "-H" then st.(opts := o.(headers := AddHeader(o.headers, v)))
    else if !StartsWith(a, "-") then st.(urls := st.urls + [a])
    else st
  }

  /** One argument of the `dlx` loop. */
  function DlxStep(st: FetchState, a: string, v: Option<string>): FetchState {
    var o := st.opts;
    if a == "" then st
    else if a == "-o" || a == "--output" then st.(opts := o.(output := OutputOf(v)))
    else if a == "-d" || a == "--dir" then st.(opts := o.(outputDir := v))
    else if a == "-f" || a == "--file-list" then st
    else FetchTailStep(st, a, v)
  }

  /** One argument of the `dl` loop: the `dlx` flags plus `-O`,
      `--preserve-path` and the repository filters. */
  function DlStep(st: FetchState, a: string, v: Option<string>): FetchState {
    var o := st.opts;
    if a == "" then st
    else if a == "-o" || a == "--output" then st.(opts := o.(output := OutputOf(v)))
    else if a == "-O" then st.(opts := o.(output := KeepOriginal))
    else if a == "-d" || a == "--dir" then st.(opts := o.(outputDir := v))
    else if a == "--preserve-path" then st.(opts := o.(preservePath := true))
    else if a == "-f" || a == "--file-list" then st
    else DlLaterStep(st, a, v)
  }

  /** The tests of the `dl` loop after `-f`: the repository filters, the
      switches, `-A`, `-H` and the URLs. */
  function DlLaterStep(st: FetchState, a: string, v: Option<string>): FetchState {
    var o := st.opts;
    if a == "--pattern" || a == "--glob" then st.(opts := o.(pattern := v))
    else if a == "--exclude" then st.(opts := o.(exclude := v))
    else if a == "--branch" || a == "-b" then st.(opts := o.(branch := v))
    else if a == "--tag" || a == "-t" then st.(opts := o.(tag := v))
    else if a == "--commit" || a == "-c" then st.(opts := o.(commit := v))
    else FetchTailStep(st, a, v)
  }

  function FetchBefore(cmd: Command, args: seq<string>, n: nat): FetchState
    requires n <= |args|
  {
    Walk(cmd, args, n, FetchStart, FetchStep(cmd))
  }

  /** Scanned position `p` holds `-f`/`--file-list` with a non-empty value
      after it: the loop hands that list over and exits. */
  predicate StopsAt(cmd: Command, args: seq<string>, p: nat) {
    Scanned(cmd, args, p) && (args[p] == "-f" || args[p] == "--file-list") &&
    Truthy(Arg(args, p + 1))
  }

  /** The first position before `n` where the loop stops, if any. */
  function FirstStop(cmd: Command, args: seq<string>, n: nat): (r: Option<nat>)
    requires n <= |args|
    ensures r.Some? ==> r.value < n && StopsAt(cmd, args, r.value)
  {
    if n == 0 then None
    else match FirstStop(cmd, args, n - 1)
      case Some(p) => Some(p)
      case None => if StopsAt(cmd, args, n - 1) then Some(n - 1) else None
  }

  /** `FirstStop` finds a stop, and no stop comes before the one found. */
  lemma {:induction false} FirstStopIsFirst(cmd: Command, args: seq<string>, n: nat)
    requires n <= |args|
    ensures FirstStop(cmd, args, n).Some? ==> forall q: nat :: q < FirstStop(cmd, args, n).value ==> !StopsAt(cmd, args, q)
    ensures FirstStop(cmd, args, n).None? ==> forall q: nat :: q < n ==> !StopsAt(cmd, args, q)
  {
    if n > 0 {
      FirstStopIsFirst(cmd, args, n - 1);
    }
  }

  /** The result of the `dlx`/`dl` loop: a file list to hand over together
      with the options seen before it, or the options and URLs collected
      from the whole argument list. */
  datatype FetchParse =
    | FileList(list: string, opts: FetchOptions)
    | Collected(opts: FetchOptions, urls: seq<string>)

  function FetchArgs(cmd: Command, args: seq<string>): FetchParse {
    match FirstStop(cmd, args, |args|)
    case Some(p) => FileList(args[p + 1], FetchBefore(cmd, args, p).opts)
    case None =>
      var st := FetchBefore(cmd, args, |args|);
      Collected(st.opts, st.urls)
  }

  /** From a scanned position that is not a stop, with no stop before it,
      the next position still has no stop before it. */
  lemma NoStopAdvance(cmd: Command, args: seq<string>, i: nat)
    requires Scanned(cmd, args, i) && !StopsAt(cmd, args, i)
    requires FirstStop(cmd, args, i) == None
    ensures FirstStop(cmd, args, Upto(Next(cmd, args, i), |args|)) == None
  {
    assert FirstStop(cmd, args, i + 1) == None;
    if Next(cmd, args, i) == i + 2 && i + 1 < |args| {
      assert Consumed(cmd, args, i + 1) by {
        assert TakesValue(cmd, args[i]) && !Consumed(cmd, args, i);
      }
      assert FirstStop(cmd, args, i + 2) == None;
    }
  }

  /** A stop at the loop's current position is the first stop overall. */
  lemma {:induction false} StopIsFirst(cmd: Command, args: seq<string>, p: nat, n: nat)
    requires p < n <= |args|
    requires StopsAt(cmd, args, p) && FirstStop(cmd, args, p) == None
    ensures FirstStop(cmd, args, n) == Some(p)
  {
    if n > p + 1 {
      StopIsFirst(cmd, args, p, n - 1);
    }
  }

  /** The `dlx`/`dl` loop written as a recursive function of the loop
      index and the state so far; `FetchLoopMeaning` shows it computes
      `FetchArgs`. */
  function FetchLoop(cmd: Command, args: seq<string>, i: nat, st: FetchState): FetchParse
    decreases |args| - i
  {
    if i >= |args| then Collected(st.opts, st.urls)
    else if (args[i] == "-f" || args[i] == "--file-list") && Truthy(Arg(args, i + 1)) then
      FileList(args[i + 1], st.opts)
    else FetchLoop(cmd, args, Next(cmd, args, i), FetchStep(cmd)(st, args[i], Arg(args, i + 1)))
  }

  /** Run from any position the loop can reach, with the state the
      positions before it produce, the loop's result is `FetchArgs`. */
  lemma {:induction false} FetchLoopMeaning(cmd: Command, args: seq<string>, i: nat, st: FetchState)
    requires 1 <= i
    requires i < |args| ==> !Consumed(cmd, args, i)
    requires FirstStop(cmd, args, Upto(i, |args|)) == None
    requires FetchBefore(cmd, args, Upto(i, |args|)) == st
    ensures FetchLoop(cmd, args, i, st) == FetchArgs(cmd, args)
    decreases |args| - i
  {
    if i >= |args| {
      assert Upto(i, |args|) == |args|;
    } else if StopsAt(cmd, args, i) {
      StopIsFirst(cmd, args, i, |args|);
    } else {
      FetchLoopAdvance(cmd, args, i, st);
      FetchLoopMeaning(cmd, args, Next(cmd, args, i), FetchStep(cmd)(st, args[i], Arg(args, i + 1)));
    }
  }

  /** One step of `FetchLoop` from a position that does not stop keeps
      what `FetchLoopMeaning` needs. */
  lemma FetchLoopAdvance(cmd: Command, args: seq<string>, i: nat, st: FetchState)
    requires Scanned(cmd, args, i) && !StopsAt(cmd, args, i)
    requires FirstStop(cmd, args, i) == None
    requires FetchBefore(cmd, args, i) == st
    ensures Next(cmd, args, i) < |args| ==> !Consumed(cmd, args, Next(cmd, args, i))
    ensures FirstStop(cmd, args, Upto(Next(cmd, args, i), |args|)) == None
    ensures FetchBefore(cmd, args, Upto(Next(cmd, args, i), |args|)) == FetchStep(cmd)(st, args[i], Arg(args, i + 1))
    ensures FetchLoop(cmd, args, i, st) == FetchLoop(cmd, args, Next(cmd, args, i), FetchStep(cmd)(st, args[i], Arg(args, i + 1)))
  {
    WalkAdvance(cmd, args, i, FetchStart, FetchStep(cmd));
    NoStopAdvance(cmd, args, i);
  }

  /** One pass of the body of the `dlx` loop (index.ts, lines 19-60) at
      index `at`: the index it leaves behind (before the loop's `i++`), the
      options and URLs after it, and the file list when `-f` ends the loop. */
  method DlxArgument(args: seq<string>, at: nat, before: FetchState)
    returns (i: nat, options: FetchOptions, urls: seq<string>, stop: Option<string>)
    requires 1 <= at < |args|
    ensures i + 1 == Next(Dlx, args, at)
    ensures FetchState(options, urls) == DlxStep(before, args[at], Arg(args, at + 1))
    ensures stop.Some? <==> (args[at] == "-f" || args[at] == "--file-list") && Truthy(Arg(args, at + 1))
    ensures stop.Some? ==> stop == Arg(args, at + 1) && options == before.opts
  {
    i, options, urls, stop := at, before.opts, before.urls, None;
    var arg := args[i];
    DlxTableInTestOrder(arg);
    if arg == "" {
    } else if arg == "-o" || arg == "--output" {
      i := i + 1;
      options := options.(output := OutputOf(Arg(args, i)));
    } else if arg == "-d" || arg == "--dir" {
      i := i + 1;
      options := options.(outputDir := Arg(args, i));
    } else if arg == "-f" || arg == "--file-list" {
      i := i + 1;
      var fileList := Arg(args, i);
      if Truthy(fileList) {
        stop := fileList;
      }
    } else {
      i, options, urls := FetchTailArgument(args, at, before);
    }
  }

  /** The tests both loops end with (index.ts, lines 39-59 and 131-150). */
  method FetchTailArgument(args: seq<string>, at: nat, before: FetchState)
    returns (i: nat, options: FetchOptions, urls: seq<string>)
    requires at < |args|
    ensures i == if args[at] in {"--user-agent", "-A", "--header", "-H"} then at + 1 else at
    ensures FetchState(options, urls) == FetchTailStep(before, args[at], Arg(args, at + 1))
  {
    i, options, urls := at, before.opts, before.urls;
    var arg := args[i];
    if arg == "--info" {
      options := options.(showInfo := true);
    } else if arg == "--progress" {
      options := options.(showProgress := true);
    } else if arg == "--overwrite" {
      options := options.(overwrite := true);
    } else if arg == "--no-redirect" {
      options := options.(followRedirects := Some(false));
    } else if arg == "--user-agent" || arg == "-A" {
      i := i + 1;
      options := options.(userAgent := Arg(args, i));
    } else if arg == "--header" || arg == "-H" {
      i := i + 1;
      options := options.(headers := AddHeader(options.headers, Arg(args, i)));
    } else if !StartsWith(arg, "-") {
      urls := urls + [arg];
    }
  }

  /** The `dlx` loop (index.ts, lines 19-60). */
  method ParseDlxArgs(args: seq<string>) returns (r: FetchParse)
    ensures r == FetchArgs(Dlx, args)
  {
    FetchLoopMeaning(Dlx, args, 1, FetchStart);
    var options := NoFetchOptions;
    var urls: seq<string> := [];
    var i := 1;
    while i < |args|
      invariant 1 <= i
      invariant FetchLoop(Dlx, args, i, FetchState(options, urls)) == FetchLoop(Dlx, args, 1, FetchStart)
    {
      var st := FetchState(options, urls);
      FetchLoopTurn(Dlx, args, i, st);
      assert FetchStep(Dlx)(st, args[i], Arg(args, i + 1)) == DlxStep(st, args[i], Arg(args, i + 1));
      var next, stop;
      next, options, urls, stop := DlxArgument(args, i, st);
      if stop.Some? {
        return FileList(stop.value, options);
      }
      i := next + 1;
    }
    return Collected(options, urls);
  }

  /** One pass of the body of the `dl`/`get`/`fetch-file` loop (index.ts, lines 96-151) at
      index `at`: the index it leaves behind (before the loop's `i++`), the
      options and URLs after it, and the file list when `-f` ends the loop. */
  method DlArgument(args: seq<string>, at: nat, before: FetchState)
    returns (i: nat, options: FetchOptions, urls: seq<string>, stop: Option<string>)
    requires 1 <= at < |args|
    ensures i + 1 == Next(Dl, args, at)
    ensures FetchState(options, urls) == DlStep(before, args[at], Arg(args, at + 1))
    ensures stop.Some? <==> (args[at] == "-f" || args[at] == "--file-list") && Truthy(Arg(args, at + 1))
    ensures stop.Some? ==> stop == Arg(args, at + 1) && options == before.opts
  {
    i, options, urls, stop := at, before.opts, before.urls, None;
    var arg := args[i];
    if arg == "" {
    } else if arg == "-o" || arg == "--output" {
      i := i + 1;
      options := options.(output := OutputOf(Arg(args, i)));
    } else if arg == "-O" {
      options := options.(output := KeepOriginal);
    } else if arg == "-d" || arg == "--dir" {
      i := i + 1;
      options := options.(outputDir := Arg(args, i));
    } else if arg == "--preserve-path" {
      options := options.(preservePath := true);
    } else if arg == "-f" || arg == "--file-list" {
      i := i + 1;
      var fileList := Arg(args, i);
      if Truthy(fileList) {
        stop := fileList;
      }
    } else {
      i, options, urls := DlLaterArgument(args, at, before);
    }
  }

  /** The rest of the `dl` loop's tests (index.ts, lines 118-150), reached
      when the argument at `at` is none of the flags tested before them. */
  method DlLaterArgument(args: seq<string>, at: nat, before: FetchState)
    returns (i: nat, options: FetchOptions, urls: seq<string>)
    requires 1 <= at < |args|
    requires args[at] !in {"", "-o", "--output", "-O", "-d", "--dir", "--preserve-path", "-f", "--file-list"}
    ensures i + 1 == Next(Dl, args, at)
    ensures FetchState(options, urls) == DlLaterStep(before, args[at], Arg(args, at + 1))
  {
    i, options, urls := at, before.opts, before.urls;
    var arg := args[i];
    DlTableInTestOrder(arg);
    if arg == "--pattern" || arg == "--glob" {
      i := i + 1;
      options := options.(pattern := Arg(args, i));
    } else if arg == "--exclude" {
      i := i + 1;
      options := options.(exclude := Arg(args, i));
    } else if arg == "--branch" || arg == "-b" {
      i := i + 1;
      options := options.(branch := Arg(args, i));
    } else if arg == "--tag" || arg == "-t" {
      i := i + 1;
      options := options.(tag := Arg(args, i));
    } else if arg == "--commit" || arg == "-c" {
      i := i + 1;
      options := options.(commit := Arg(args, i));
    } else {
      i, options, urls := FetchTailArgument(args, at, before);
    }
  }

  /** The `dl`/`get`/`fetch-file` loop (index.ts, lines 96-151). */
  method ParseDlArgs(args: seq<string>) returns (r: FetchParse)
    ensures r == FetchArgs(Dl, args)
  {
    FetchLoopMeaning(Dl, args, 1, FetchStart);
    var options := NoFetchOptions;
    var urls: seq<string> := [];
    var i := 1;
    while i < |args|
      invariant 1 <= i
      invariant FetchLoop(Dl, args, i, FetchState(options, urls)) == FetchLoop(Dl, args, 1, FetchStart)
    {
      var st := FetchState(options, urls);
      FetchLoopTurn(Dl, args, i, st);
      assert FetchStep(Dl)(st, args[i], Arg(args, i + 1)) == DlStep(st, args[i], Arg(args, i + 1));
      var next, stop;
      next, options, urls, stop := DlArgument(args, i, st);
      if stop.Some? {
        return FileList(stop.value, options);
      }
      i := next + 1;
    }
    return Collected(options, urls);
  }

  // ---------------------------------------------------------------
  // dl-dir and dl-release

  /** The options `dl-dir` gathers; `depth` holds the result of
      `parseInt(value, 10)`. */
  datatype DirOptions = DirOptions(
    outputDir: Option<string>,
    depth: Option<Parsed>,
    branch: Option<string>,
    pattern: Option<string>,
    exclude: Option<string>,
    overwrite: bool)

  datatype DirState = DirState(opts: DirOptions, url: string)

  const DirStart := DirState(DirOptions(None, None, None, None, None, false), "")

  /** One argument of the `dl-dir` loop. `--depth` always takes the next
      argument but sets `depth` only when that argument is non-empty. */
  function DirStep(st: DirState, a: string, v: Option<string>): DirState {
    var o := st.opts;
    if a == "" then st
    else if a == "-d" || a == "--dir" then st.(opts := o.(outputDir := v))
    else if a == "--depth" then
      if Truthy(v) then st.(opts := o.(depth := Some(ParseInt10(v.value)))) else st
    else if a == "--branch" || a == "-b" then st.(opts := o.(branch := v))
    else if a == "--pattern" then st.(opts := o.(pattern := v))
    else if a == "--exclude" then st.(opts := o.(exclude := v))
    else if a == "--overwrite" then st.(opts := o.(overwrite := true))
    else if !StartsWith(a, "-") then st.(url := a)
    else st
  }

  function DirArgs(args: seq<string>): DirState {
    Walk(DlDir, args, |args|, DirStart, DirStep)
  }

  /** One pass of the body of the `dl-dir` loop (index.ts, lines 183-208) at
      index `at`: the index it leaves behind (before the loop's `i++`) and
      the options and URL after it. */
  method DirArgument(args: seq<string>, at: nat, before: DirState)
    returns (i: nat, options: DirOptions, url: string)
    requires 1 <= at < |args|
    ensures i + 1 == Next(DlDir, args, at)
    ensures DirState(options, url) == DirStep(before, args[at], Arg(args, at + 1))
  {
    i, options, url := at, before.opts, before.url;
    var arg := args[i];
    DirTableInTestOrder(arg);
    if arg == "" {
    } else if arg == "-d" || arg == "--dir" {
      i := i + 1;
      options := options.(outputDir := Arg(args, i));
    } else if arg == "--depth" {
      i := i + 1;
      var depthArg := Arg(args, i);
      if Truthy(depthArg) {
        options := options.(depth := Some(ParseInt10(depthArg.value)));
      }
    } else if arg == "--branch" || arg == "-b" {
      i := i + 1;
      options := options.(branch := Arg(args, i));
    } else if arg == "--pattern" {
      i := i + 1;
      options := options.(pattern := Arg(args, i));
    } else if arg == "--exclude" {
      i := i + 1;
      options := options.(exclude := Arg(args, i));
    } else if arg == "--overwrite" {
      options := options.(overwrite := true);
    } else if !StartsWith(arg, "-") {
      url := arg;
    }
  }

  /** The `dl-dir` loop (index.ts, lines 183-208). */
  method ParseDlDirArgs(args: seq<string>) returns (options: DirOptions, url: string)
    ensures DirState(options, url) == DirArgs(args)
  {
    RunMeaning(DlDir, args, 1, DirStart, DirStep);
    options := DirStart.opts;
    url := "";
    var i := 1;
    while i < |args|
      invariant 1 <= i
      invariant Run(DlDir, args, i, DirState(options, url), DirStep) == DirArgs(args)
    {
      var next;
      next, options, url := DirArgument(args, i, DirState(options, url));
      i := next + 1;
    }
  }

  /** The options `dl-release` gathers. */
  datatype ReleaseOptions = ReleaseOptions(
    asset: Option<string>,
    version: Option<string>,
    outputDir: Option<string>,
    overwrite: bool)

  datatype ReleaseState = ReleaseState(opts: ReleaseOptions, url: string)

  const ReleaseStart := ReleaseState(ReleaseOptions(None, None, None, false), "")

  /** One argument of the `dl-release` loop. */
  function ReleaseStep(st: ReleaseState, a: string, v: Option<string>): ReleaseState {
    var o := st.opts;
    if a == "" then st
    else if a == "--asset" then st.(opts := o.(asset := v))
    else if a == "--version" || a == "-v" then st.(opts := o.(version := v))
    else if a == "-d" || a == "--dir" then st.(opts := o.(outputDir := v))
    else if a == "--overwrite" then st.(opts := o.(overwrite := true))
    else if !StartsWith(a, "-") then st.(url := a)
    else st
  }

  function ReleaseArgs(args: seq<string>): ReleaseState {
    Walk(DlRelease, args, |args|, ReleaseStart, ReleaseStep)
  }

  /** One pass of the body of the `dl-release` loop (index.ts, lines 228-246) at
      index `at`: the index it leaves behind (before the loop's `i++`) and
      the options and URL after it. */
  method ReleaseArgument(args: seq<string>, at: nat, before: ReleaseState)
    returns (i: nat, options: ReleaseOptions, url: string)
    requires 1 <= at < |args|
    ensures i + 1 == Next(DlRelease, args, at)
    ensures ReleaseState(options, url) == ReleaseStep(before, args[at], Arg(args, at + 1))
  {
    i, options, url := at, before.opts, before.url;
    var arg := args[i];
    ReleaseTableInTestOrder(arg);
    if arg == "" {
    } else if arg == "--asset" {
      i := i + 1;
      options := options.(asset := Arg(args, i));
    } else if arg == "--version" || arg == "-v" {
      i := i + 1;
      options := options.(version := Arg(args, i));
    } else if arg == "-d" || arg == "--dir" {
      i := i + 1;
      options := options.(outputDir := Arg(args, i));
    } else if arg == "--overwrite" {
      options := options.(overwrite := true);
    } else if !StartsWith(arg, "-") {
      url := arg;
    }
  }

  /** The `dl-release` loop (index.ts, lines 228-246). */
  method ParseDlReleaseArgs(args: seq<string>) returns (options: ReleaseOptions, url: string)
    ensures ReleaseState(options, url) == ReleaseArgs(args)
  {
    RunMeaning(DlRelease, args, 1, ReleaseStart, ReleaseStep);
    options := ReleaseStart.opts;
    url := "";
    var i := 1;
    while i < |args|
      invariant 1 <= i
      invariant Run(DlRelease, args, i, ReleaseState(options, url), ReleaseStep) == ReleaseArgs(args)
    {
      var next;
      next, options, url := ReleaseArgument(args, i, ReleaseState(options, url));
      i := next + 1;
    }
  }

  // ---------------------------------------------------------------
  // What each command does once its loop is done

  /** The download a `dlx`/`dl` invocation ends in, with its exit status:
      the file list, a usage error, one URL or several. */
  datatype FetchAction =
    | FromFileList(list: string, opts: FetchOptions)
    | FetchNoUrl
    | Single(url: string, opts: FetchOptions)
    | Multiple(urls: seq<string>, opts: FetchOptions)
  {
    function ExitCode(): int {
      if FetchNoUrl? then 1 else 0
    }
  }

  /** index.ts, lines 62-83 (`dlx`) and 153-173 (`dl`). */
  function FetchRoute(p: FetchParse): (r: FetchAction)
    ensures r.FromFileList? <==> p.FileList?
    ensures r.FromFileList? ==> r.list == p.list && r.opts == p.opts
    ensures r.FetchNoUrl? <==> p.Collected? && p.urls == []
    ensures r.Single? <==> p.Collected? && |p.urls| == 1 && p.urls[0] != ""
    ensures r.Single? ==> r.url == p.urls[0] && r.opts == p.opts
    ensures r.Multiple? ==> r.urls == p.urls && r.opts == p.opts
    ensures r.ExitCode() == 1 <==> r.FetchNoUrl?
  {
    match p
    case FileList(list, opts) => FromFileList(list, opts)
    case Collected(opts, urls) =>
      if |urls| == 0 then FetchNoUrl
      else if |urls| == 1 && urls[0] != "" then Single(urls[0], opts)
      else Multiple(urls, opts)
  }

  /** The download a `dl-dir` invocation ends in. */
  datatype DirAction =
    | DirNoUrl
    | WithPattern(url: string, pattern: string, opts: DirOptions)
    | Directory(url: string, opts: DirOptions)
  {
    function ExitCode(): int {
      if DirNoUrl? then 1 else 0
    }
  }

  /** index.ts, lines 210-220: no URL is a usage error; a non-empty
      pattern selects the pattern downloader. */
  function DirRoute(st: DirState): (r: DirAction)
    ensures r.DirNoUrl? <==> st.url == ""
    ensures r.WithPattern? <==> st.url != "" && Truthy(st.opts.pattern)
    ensures r.WithPattern? ==> r.url == st.url && Some(r.pattern) == st.opts.pattern && r.opts == st.opts
    ensures r.Directory? ==> r.url == st.url && r.opts == st.opts
    ensures r.ExitCode() == 1 <==> st.url == ""
  {
    if st.url == "" then DirNoUrl
    else if Truthy(st.opts.pattern) then WithPattern(st.url, st.opts.pattern.value, st.opts)
    else Directory(st.url, st.opts)
  }

  /** The download a `dl-release` invocation ends in. */
  datatype ReleaseAction =
    | ReleaseNoUrl
    | Release(url: string, opts: ReleaseOptions)
  {
    function ExitCode(): int {
      if ReleaseNoUrl? then 1 else 0
    }
  }

  /** index.ts, lines 248-254. */
  function ReleaseRoute(st: ReleaseState): (r: ReleaseAction)
    ensures r.ReleaseNoUrl? <==> st.url == ""
    ensures r.Release? ==> r.url == st.url && r.opts == st.opts
    ensures r.ExitCode() == 1 <==> st.url == ""
  {
    if st.url == "" then ReleaseNoUrl else Release(st.url, st.opts)
  }
}
