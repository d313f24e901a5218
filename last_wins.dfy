/** Which value a repeated flag of the download loops leaves behind, for
    every option the loops set from the next argument, and what a dash
    argument no test of a loop names does. The rule is stated once for any
    loop and any part of its state (`LastSetWins`); each option then only
    needs the fact that one step of its loop sets it from the next argument
    or keeps it. */
module LastWins {
  import opened Wrappers
  import opened Strings
  import opened DownloadArgs

  // ---------------------------------------------------------------
  // The rule

  /** When a step changes the part `proj` of the state exactly for the
      arguments `sets` holds of, to `value` of the argument and the one
      after it, then after position `n` that part holds what the last such
      scanned position `p` before `n` set. */
  lemma {:induction false} LastSetWins<S, T>(cmd: Command, args: seq<string>, p: nat, n: nat, init: S,
                                             step: (S, string, Option<string>) -> S, proj: S -> T,
                                             sets: (string, Option<string>) -> bool,
                                             value: (string, Option<string>) -> T)
    requires forall st, a, v :: proj(step(st, a, v)) == if sets(a, v) then value(a, v) else proj(st)
    requires p < n <= |args| && Scanned(cmd, args, p) && sets(args[p], Arg(args, p + 1))
    requires forall q :: p < q < n && Scanned(cmd, args, q) ==> !sets(args[q], Arg(args, q + 1))
    ensures proj(Walk(cmd, args, n, init, step)) == value(args[p], Arg(args, p + 1))
  {
    if n > p + 1 {
      LastSetWins(cmd, args, p, n - 1, init, step, proj, sets, value);
      if !Consumed(cmd, args, n - 1) {
        assert Scanned(cmd, args, n - 1);
      }
    }
  }

  /** Under the same condition, a part no scanned position before `n` sets
      keeps its initial value. */
  lemma {:induction false} NeverSetKeepsStart<S, T>(cmd: Command, args: seq<string>, n: nat, init: S,
                                                    step: (S, string, Option<string>) -> S, proj: S -> T,
                                                    sets: (string, Option<string>) -> bool,
                                                    value: (string, Option<string>) -> T)
    requires forall st, a, v :: proj(step(st, a, v)) == if sets(a, v) then value(a, v) else proj(st)
    requires n <= |args|
    requires forall q :: 0 < q < n && Scanned(cmd, args, q) ==> !sets(args[q], Arg(args, q + 1))
    ensures proj(Walk(cmd, args, n, init, step)) == proj(init)
  {
    if n > 1 {
      NeverSetKeepsStart(cmd, args, n - 1, init, step, proj, sets, value);
      if !Consumed(cmd, args, n - 1) {
        assert Scanned(cmd, args, n - 1);
      }
    }
  }

  // ---------------------------------------------------------------
  // `dlx` and `dl`: the options set to `args[++i]` (index.ts, lines 27-60 and 104-152)

  /** The `dlx`/`dl` options that take the next argument as it is. */
  datatype FetchText = OutputDir | Pattern | Exclude | Branch | Tag | Commit | UserAgent

  function FetchTextOf(f: FetchText, o: FetchOptions): Option<string> {
    match f
    case OutputDir => o.outputDir
    case Pattern => o.pattern
    case Exclude => o.exclude
    case Branch => o.branch
    case Tag => o.tag
    case Commit => o.commit
    case UserAgent => o.userAgent
  }

  /** The flags that set option `f` in the loop of `cmd`; only `dl` knows
      the repository filters. */
  predicate SetsFetchText(cmd: Command, f: FetchText, a: string) {
    match f
    case OutputDir => a == "-d" || a == "--dir"
    case Pattern => cmd == Dl && (a == "--pattern" || a == "--glob")
    case Exclude => cmd == Dl && a == "--exclude"
    case Branch => cmd == Dl && (a == "--branch" || a == "-b")
    case Tag => cmd == Dl && (a == "--tag" || a == "-t")
    case Commit => cmd == Dl && (a == "--commit" || a == "-c")
    case UserAgent => a == "--user-agent" || a == "-A"
  }

  lemma TailStepText(f: FetchText, st: FetchState, a: string, v: Option<string>)
    ensures FetchTextOf(f, FetchTailStep(st, a, v).opts)
         == if f == UserAgent && (a == "--user-agent" || a == "-A") then v else FetchTextOf(f, st.opts)
  {
    var o := FetchTailStep(st, a, v).opts;
    if a == "--user-agent" || a == "-A" {
      assert o == st.opts.(userAgent := v);
    } else {
      assert o.(showInfo := false, showProgress := false, overwrite := false, followRedirects := None, headers := map[])
          == st.opts.(showInfo := false, showProgress := false, overwrite := false, followRedirects := None, headers := map[]);
    }
  }

  lemma DlxStepText(f: FetchText, st: FetchState, a: string, v: Option<string>)
    ensures FetchTextOf(f, DlxStep(st, a, v).opts) == if SetsFetchText(Dlx, f, a) then v else FetchTextOf(f, st.opts)
  {
    if a == "" || a == "-o" || a == "--output" || a == "-d" || a == "--dir" || a == "-f" || a == "--file-list" {
    } else {
      TailStepText(f, st, a, v);
    }
  }

  lemma DlLaterStepText(f: FetchText, st: FetchState, a: string, v: Option<string>)
    requires a != "-d" && a != "--dir"
    ensures FetchTextOf(f, DlLaterStep(st, a, v).opts) == if SetsFetchText(Dl, f, a) then v else FetchTextOf(f, st.opts)
  {
    if a == "--pattern" || a == "--glob" || a == "--exclude" || a == "--branch" || a == "-b" {
    } else if a == "--tag" || a == "-t" || a == "--commit" || a == "-c" {
    } else {
      TailStepText(f, st, a, v);
    }
  }

  lemma DlStepText(f: FetchText, st: FetchState, a: string, v: Option<string>)
    ensures FetchTextOf(f, DlStep(st, a, v).opts) == if SetsFetchText(Dl, f, a) then v else FetchTextOf(f, st.opts)
  {
    if a == "" || a == "-o" || a == "--output" || a == "-O" || a == "-d" || a == "--dir" {
    } else if a == "--preserve-path" || a == "-f" || a == "--file-list" {
    } else {
      DlLaterStepText(f, st, a, v);
    }
  }

  /** One step of the `dlx`/`dl` loop sets option `f` to the next argument
      when its flag is the argument, and keeps it otherwise. */
  lemma StepText(cmd: Command, f: FetchText, st: FetchState, a: string, v: Option<string>)
    ensures FetchTextOf(f, FetchStep(cmd)(st, a, v).opts) == if SetsFetchText(cmd, f, a) then v else FetchTextOf(f, st.opts)
  {
    if cmd == Dl {
      DlStepText(f, st, a, v);
    } else {
      DlxStepText(f, st, a, v);
      assert SetsFetchText(cmd, f, a) == SetsFetchText(Dlx, f, a);
    }
  }

  /** `-d`, `-A` and the `dl` repository filters: the last flag before `n`
      wins, with the argument after it (`undefined` at the end). */
  lemma FetchTextLastWins(cmd: Command, f: FetchText, args: seq<string>, p: nat, n: nat)
    requires p < n <= |args| && Scanned(cmd, args, p) && SetsFetchText(cmd, f, args[p])
    requires forall q :: p < q < n && Scanned(cmd, args, q) ==> !SetsFetchText(cmd, f, args[q])
    ensures FetchTextOf(f, FetchBefore(cmd, args, n).opts) == Arg(args, p + 1)
  {
    forall st, a, v
      ensures FetchTextOf(f, FetchStep(cmd)(st, a, v).opts) == if SetsFetchText(cmd, f, a) then v else FetchTextOf(f, st.opts)
    {
      StepText(cmd, f, st, a, v);
    }
    LastSetWins(cmd, args, p, n, FetchStart, FetchStep(cmd), (st: FetchState) => FetchTextOf(f, st.opts),
                (a, v) => SetsFetchText(cmd, f, a), (a, v) => v);
  }

  /** Without its flag an option stays unset. */
  lemma FetchTextUnsetWithoutFlag(cmd: Command, f: FetchText, args: seq<string>, n: nat)
    requires n <= |args|
    requires forall q :: 0 < q < n && Scanned(cmd, args, q) ==> !SetsFetchText(cmd, f, args[q])
    ensures FetchTextOf(f, FetchBefore(cmd, args, n).opts) == None
  {
    forall st, a, v
      ensures FetchTextOf(f, FetchStep(cmd)(st, a, v).opts) == if SetsFetchText(cmd, f, a) then v else FetchTextOf(f, st.opts)
    {
      StepText(cmd, f, st, a, v);
    }
    NeverSetKeepsStart(cmd, args, n, FetchStart, FetchStep(cmd), (st: FetchState) => FetchTextOf(f, st.opts),
                       (a, v) => SetsFetchText(cmd, f, a), (a, v) => v);
  }

  // ---------------------------------------------------------------
  // `-H` (index.ts, lines 47-56 and 138-147)

  /** The value the header map holds for `key`, if any. */
  function HeaderOf(headers: map<string, string>, key: string): Option<string> {
    if key in headers then Some(headers[key]) else None
  }

  /** The header name a `-H` value adds, if it adds one. */
  function HeaderName(header: Option<string>): Option<string> {
    if !Truthy(header) then None
    else
      var (key, _) := SplitFirst(header.value, ':');
      if key == "" then None else Some(Trim(key))
  }

  /** The header value a `-H` value adds. */
  function HeaderText(header: Option<string>): string {
    if header.Some? then Trim(SplitFirst(header.value, ':').1) else ""
  }

  /** Adding a header changes the entry of its own name and no other. */
  lemma AddHeaderLookup(headers: map<string, string>, header: Option<string>, key: string)
    ensures HeaderOf(AddHeader(headers, header), key)
         == if HeaderName(header) == Some(key) then Some(HeaderText(header)) else HeaderOf(headers, key)
  {
  }

  predicate IsHeaderFlag(a: string) {
    a == "--header" || a == "-H"
  }

  lemma TailHeaders(st: FetchState, a: string, v: Option<string>)
    ensures FetchTailStep(st, a, v).opts.headers == if IsHeaderFlag(a) then AddHeader(st.opts.headers, v) else st.opts.headers
  {
  }

  lemma TailStepHeader(st: FetchState, a: string, v: Option<string>, key: string)
    ensures HeaderOf(FetchTailStep(st, a, v).opts.headers, key)
         == if IsHeaderFlag(a) && HeaderName(v) == Some(key) then Some(HeaderText(v)) else HeaderOf(st.opts.headers, key)
  {
    TailHeaders(st, a, v);
    AddHeaderLookup(st.opts.headers, v, key);
  }

  /** Only `-H` touches the header map, and only at the name it adds. */
  lemma StepHeader(cmd: Command, st: FetchState, a: string, v: Option<string>, key: string)
    ensures HeaderOf(FetchStep(cmd)(st, a, v).opts.headers, key)
         == if IsHeaderFlag(a) && HeaderName(v) == Some(key) then Some(HeaderText(v)) else HeaderOf(st.opts.headers, key)
  {
    if a == "" || a == "-o" || a == "--output" || a == "-O" || a == "-d" || a == "--dir" {
    } else if a == "--preserve-path" || a == "-f" || a == "--file-list" {
    } else if cmd == Dl && (a == "--pattern" || a == "--glob" || a == "--exclude" || a == "--branch" || a == "-b") {
    } else if cmd == Dl && (a == "--tag" || a == "-t" || a == "--commit" || a == "-c") {
    } else {
      TailStepHeader(st, a, v, key);
    }
  }

  /** A header name holds the value of the last `-H` before `n` that names
      it; `-H` values naming other headers do not disturb it. */
  lemma HeaderKeyLastWins(cmd: Command, args: seq<string>, key: string, p: nat, n: nat)
    requires p < n <= |args| && Scanned(cmd, args, p)
    requires IsHeaderFlag(args[p]) && HeaderName(Arg(args, p + 1)) == Some(key)
    requires forall q :: p < q < n && Scanned(cmd, args, q) && IsHeaderFlag(args[q]) ==>
      HeaderName(Arg(args, q + 1)) != Some(key)
    ensures HeaderOf(FetchBefore(cmd, args, n).opts.headers, key) == Some(HeaderText(Arg(args, p + 1)))
  {
    forall st, a, v
      ensures HeaderOf(FetchStep(cmd)(st, a, v).opts.headers, key)
           == if IsHeaderFlag(a) && HeaderName(v) == Some(key) then Some(HeaderText(v)) else HeaderOf(st.opts.headers, key)
    {
      StepHeader(cmd, st, a, v, key);
    }
    LastSetWins(cmd, args, p, n, FetchStart, FetchStep(cmd), (st: FetchState) => HeaderOf(st.opts.headers, key),
                (a, v) => IsHeaderFlag(a) && HeaderName(v) == Some(key), (a, v) => Some(HeaderText(v)));
  }

  // ---------------------------------------------------------------
  // `dl-dir` (index.ts, lines 183-208)

  /** The `dl-dir` options that take the next argument as it is. */
  datatype DirText = DirOutputDir | DirBranch | DirPattern | DirExclude

  function DirTextOf(f: DirText, o: DirOptions): Option<string> {
    match f
    case DirOutputDir => o.outputDir
    case DirBranch => o.branch
    case DirPattern => o.pattern
    case DirExclude => o.exclude
  }

  predicate SetsDirText(f: DirText, a: string) {
    match f
    case DirOutputDir => a == "-d" || a == "--dir"
    case DirBranch => a == "--branch" || a == "-b"
    case DirPattern => a == "--pattern"
    case DirExclude => a == "--exclude"
  }

  lemma DirStepText(f: DirText, st: DirState, a: string, v: Option<string>)
    ensures DirTextOf(f, DirStep(st, a, v).opts) == if SetsDirText(f, a) then v else DirTextOf(f, st.opts)
  {
  }

  /** `-d`, `--branch`, `--pattern` and `--exclude` of `dl-dir`: the last
      flag before `n` wins, with the argument after it. */
  lemma DirTextLastWins(f: DirText, args: seq<string>, p: nat, n: nat)
    requires p < n <= |args| && Scanned(DlDir, args, p) && SetsDirText(f, args[p])
    requires forall q :: p < q < n && Scanned(DlDir, args, q) ==> !SetsDirText(f, args[q])
    ensures DirTextOf(f, Walk(DlDir, args, n, DirStart, DirStep).opts) == Arg(args, p + 1)
  {
    forall st, a, v
      ensures DirTextOf(f, DirStep(st, a, v).opts) == if SetsDirText(f, a) then v else DirTextOf(f, st.opts)
    {
      DirStepText(f, st, a, v);
    }
    LastSetWins(DlDir, args, p, n, DirStart, DirStep, (st: DirState) => DirTextOf(f, st.opts),
                (a, v) => SetsDirText(f, a), (a, v) => v);
  }

  /** Whether a `--depth` with next argument `v` sets the depth. */
  predicate SetsDepth(a: string, v: Option<string>) {
    a == "--depth" && Truthy(v)
  }

  /** The depth a `--depth` with a non-empty value sets. */
  function DepthSetBy(v: Option<string>): Option<Parsed> {
    if v.Some? then Some(ParseInt10(v.value)) else None
  }

  lemma DirStepDepth(st: DirState, a: string, v: Option<string>)
    ensures DirStep(st, a, v).opts.depth == if SetsDepth(a, v) then DepthSetBy(v) else st.opts.depth
  {
  }

  /** The depth is the parse of the value of the last `--depth` before
      `n` that has a non-empty value; one with an empty or missing value
      leaves the earlier depth in place. */
  lemma DepthLastWins(args: seq<string>, p: nat, n: nat)
    requires p < n <= |args| && Scanned(DlDir, args, p) && SetsDepth(args[p], Arg(args, p + 1))
    requires forall q :: p < q < n && Scanned(DlDir, args, q) ==> !SetsDepth(args[q], Arg(args, q + 1))
    ensures Walk(DlDir, args, n, DirStart, DirStep).opts.depth == Some(ParseInt10(args[p + 1]))
  {
    forall st, a, v
      ensures DirStep(st, a, v).opts.depth == if SetsDepth(a, v) then DepthSetBy(v) else st.opts.depth
    {
      DirStepDepth(st, a, v);
    }
    LastSetWins(DlDir, args, p, n, DirStart, DirStep, (st: DirState) => st.opts.depth, SetsDepth,
                (a, v) => DepthSetBy(v));
  }

  // ---------------------------------------------------------------
  // `dl-release` (index.ts, lines 228-246)

  /** The `dl-release` options, all of which take the next argument as it is. */
  datatype ReleaseText = Asset | Version | ReleaseDir

  function ReleaseTextOf(f: ReleaseText, o: ReleaseOptions): Option<string> {
    match f
    case Asset => o.asset
    case Version => o.version
    case ReleaseDir => o.outputDir
  }

  predicate SetsReleaseText(f: ReleaseText, a: string) {
    match f
    case Asset => a == "--asset"
    case Version => a == "--version" || a == "-v"
    case ReleaseDir => a == "-d" || a == "--dir"
  }

  lemma ReleaseStepText(f: ReleaseText, st: ReleaseState, a: string, v: Option<string>)
    ensures ReleaseTextOf(f, ReleaseStep(st, a, v).opts) == if SetsReleaseText(f, a) then v else ReleaseTextOf(f, st.opts)
  {
  }

  /** `--asset`, `--version` and `-d` of `dl-release`: the last flag before
      `n` wins, with the argument after it. */
  lemma ReleaseTextLastWins(f: ReleaseText, args: seq<string>, p: nat, n: nat)
    requires p < n <= |args| && Scanned(DlRelease, args, p) && SetsReleaseText(f, args[p])
    requires forall q :: p < q < n && Scanned(DlRelease, args, q) ==> !SetsReleaseText(f, args[q])
    ensures ReleaseTextOf(f, Walk(DlRelease, args, n, ReleaseStart, ReleaseStep).opts) == Arg(args, p + 1)
  {
    forall st, a, v
      ensures ReleaseTextOf(f, ReleaseStep(st, a, v).opts) == if SetsReleaseText(f, a) then v else ReleaseTextOf(f, st.opts)
    {
      ReleaseStepText(f, st, a, v);
    }
    LastSetWins(DlRelease, args, p, n, ReleaseStart, ReleaseStep, (st: ReleaseState) => ReleaseTextOf(f, st.opts),
                (a, v) => SetsReleaseText(f, a), (a, v) => v);
  }

  // ---------------------------------------------------------------
  // Dash arguments no test names

  /** Every argument the `dlx`/`dl` loop tests for, besides the empty one. */
  function FetchFlags(cmd: Command): set<string> {
    var switches := {"--info", "--progress", "--overwrite", "--no-redirect"};
    if cmd == Dl then ValueFlags(Dl) + switches + {"-O", "--preserve-path"}
    else ValueFlags(Dlx) + switches
  }

  /** A dash argument the `dlx`/`dl` loop does not test for falls through
      every test: options and URLs stay as they were. */
  lemma UnknownFetchFlagIgnored(cmd: Command, st: FetchState, a: string, v: Option<string>)
    requires StartsWith(a, "-") && a !in FetchFlags(cmd)
    ensures FetchStep(cmd)(st, a, v) == st
  {
  }

  /** The same for `dl-dir`. */
  lemma UnknownDirFlagIgnored(st: DirState, a: string, v: Option<string>)
    requires StartsWith(a, "-") && a !in ValueFlags(DlDir) + {"--overwrite"}
    ensures DirStep(st, a, v) == st
  {
  }

  /** The same for `dl-release`. */
  lemma UnknownReleaseFlagIgnored(st: ReleaseState, a: string, v: Option<string>)
    requires StartsWith(a, "-") && a !in ValueFlags(DlRelease) + {"--overwrite"}
    ensures ReleaseStep(st, a, v) == st
  {
  }
}
