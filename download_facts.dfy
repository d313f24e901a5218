/** What the download-command loops of `DownloadArgs` mean: where URLs
    come from, which value a repeated flag leaves behind, how `-H` values
    are split, and that `-f` makes the rest of the line irrelevant. */
module DownloadFacts {
  import opened Wrappers
  import opened Strings
  import opened DownloadArgs

  // ---------------------------------------------------------------
  // Headers (index.ts, lines 47-56 and 138-147)

  /** A header is split at its first colon: later colons stay in the
      value, and both halves are trimmed. */
  lemma HeaderSplitsAtFirstColon(headers: map<string, string>, key: string, rest: string)
    requires ':' !in key && key != ""
    ensures AddHeader(headers, Some(key + ":" + rest)) == headers[Trim(key) := Trim(rest)]
  {
    SplitFirstJoined(key, ':', rest);
  }

  /** A header without a colon maps its trimmed text to the empty value. */
  lemma HeaderWithoutColon(headers: map<string, string>, header: string)
    requires ':' !in header && header != ""
    ensures AddHeader(headers, Some(header)) == headers[Trim(header) := ""]
  {
    assert IndexOf(header, ':') == None;
  }

  /** A header whose name part is empty, such as `:x`, adds nothing. */
  lemma HeaderEmptyKeyIgnored(headers: map<string, string>, rest: string)
    ensures AddHeader(headers, Some(":" + rest)) == headers
  {
    SplitFirstJoined("", ':', rest);
  }

  lemma UpdateTwice(m: map<string, string>, k: string, a: string, b: string)
    ensures m[k := a][k := b] == m[k := b]
  {
  }

  /** Of two headers with the same trimmed name, the later one wins. */
  lemma HeaderLastWins(headers: map<string, string>, key1: string, rest1: string,
                       key2: string, rest2: string)
    requires ':' !in key1 && key1 != "" && ':' !in key2 && key2 != ""
    requires Trim(key1) == Trim(key2)
    ensures AddHeader(AddHeader(headers, Some(key1 + ":" + rest1)), Some(key2 + ":" + rest2))
         == headers[Trim(key2) := Trim(rest2)]
  {
    var once := AddHeader(headers, Some(key1 + ":" + rest1));
    HeaderSplitsAtFirstColon(headers, key1, rest1);
    assert once == headers[Trim(key1) := Trim(rest1)];
    HeaderSplitsAtFirstColon(once, key2, rest2);
    UpdateTwice(headers, Trim(key2), Trim(rest1), Trim(rest2));
  }

  // ---------------------------------------------------------------
  // URLs (index.ts, lines 57-59, 148-150, 204-206 and 242-244)

  /** A URL-like argument is appended to the list and touches no option;
      every other argument leaves the list alone. */
  lemma FetchStepUrls(cmd: Command, st: FetchState, a: string, v: Option<string>)
    ensures FetchStep(cmd)(st, a, v).urls == if IsUrlArg(a) then st.urls + [a] else st.urls
    ensures IsUrlArg(a) ==> FetchStep(cmd)(st, a, v).opts == st.opts
  {
    if IsUrlArg(a) {
      assert a[0] != '-' by { assert a[..1] != "-"; }
    }
  }

  /** The `dlx`/`dl` URL list is the list of URL-like arguments, in input
      order, at the positions not read as a flag's value. */
  lemma {:induction false} FetchUrls(cmd: Command, args: seq<string>, n: nat)
    requires n <= |args|
    ensures FetchBefore(cmd, args, n).urls == BareArgs(cmd, args, n)
  {
    if n > 1 {
      FetchUrls(cmd, args, n - 1);
      FetchStepUrls(cmd, FetchBefore(cmd, args, n - 1), args[n - 1], Arg(args, n));
    }
  }

  /** So, when no `-f` stops the loop, the URLs handed to the download are
      exactly those arguments. */
  lemma CollectedUrls(cmd: Command, args: seq<string>)
    requires FetchArgs(cmd, args).Collected?
    ensures FetchArgs(cmd, args).urls == BareArgs(cmd, args, |args|)
  {
    FetchUrls(cmd, args, |args|);
  }

  /** Every collected URL is non-empty. */
  lemma {:induction false} BareArgsNonEmpty(cmd: Command, args: seq<string>, n: nat)
    requires n <= |args|
    ensures forall k :: 0 <= k < |BareArgs(cmd, args, n)| ==> BareArgs(cmd, args, n)[k] != ""
  {
    if n > 1 {
      BareArgsNonEmpty(cmd, args, n - 1);
    }
  }

  /** A value-taking flag at a scanned position reads exactly the argument
      after it, and the loop then looks at the one after that. */
  lemma ValueFlagReadsNext(cmd: Command, args: seq<string>, k: nat)
    requires Scanned(cmd, args, k) && TakesValue(cmd, args[k]) && k + 1 < |args|
    ensures Consumed(cmd, args, k + 1) && !Scanned(cmd, args, k + 1)
    ensures k + 2 < |args| ==> Scanned(cmd, args, k + 2)
  {
  }

  /** Exactly one URL goes to the single download, several to the multiple
      download, none to the usage error with exit status 1. */
  lemma FetchRouteByCount(cmd: Command, args: seq<string>)
    requires FetchArgs(cmd, args).Collected?
    ensures FetchRoute(FetchArgs(cmd, args)).FetchNoUrl? <==> BareArgs(cmd, args, |args|) == []
    ensures FetchRoute(FetchArgs(cmd, args)).Single? <==> |BareArgs(cmd, args, |args|)| == 1
    ensures FetchRoute(FetchArgs(cmd, args)).Multiple? <==> |BareArgs(cmd, args, |args|)| >= 2
  {
    CollectedUrls(cmd, args);
    BareArgsNonEmpty(cmd, args, |args|);
  }

  /** The `dl-dir` URL is the last URL-like argument, or empty. */
  lemma {:induction false} DirUrlIsLast(args: seq<string>, n: nat)
    requires n <= |args|
    ensures Walk(DlDir, args, n, DirStart, DirStep).url == LastOr(BareArgs(DlDir, args, n), "")
  {
    if n > 1 {
      DirUrlIsLast(args, n - 1);
      var a := args[n - 1];
      if IsUrlArg(a) {
        assert a[0] != '-' by { assert a[..1] != "-"; }
      }
    }
  }

  /** The `dl-release` URL is the last URL-like argument, or empty. */
  lemma {:induction false} ReleaseUrlIsLast(args: seq<string>, n: nat)
    requires n <= |args|
    ensures Walk(DlRelease, args, n, ReleaseStart, ReleaseStep).url == LastOr(BareArgs(DlRelease, args, n), "")
  {
    if n > 1 {
      ReleaseUrlIsLast(args, n - 1);
      var a := args[n - 1];
      if IsUrlArg(a) {
        assert a[0] != '-' by { assert a[..1] != "-"; }
      }
    }
  }

  /** `dl-dir` and `dl-release` fail with exit status 1 exactly when no
      URL-like argument is given. */
  lemma NoUrlExactlyWhenNoBareArg(args: seq<string>)
    ensures DirRoute(DirArgs(args)).ExitCode() == 1 <==> BareArgs(DlDir, args, |args|) == []
    ensures ReleaseRoute(ReleaseArgs(args)).ExitCode() == 1 <==> BareArgs(DlRelease, args, |args|) == []
  {
    DirUrlIsLast(args, |args|);
    ReleaseUrlIsLast(args, |args|);
    BareArgsNonEmpty(DlDir, args, |args|);
    BareArgsNonEmpty(DlRelease, args, |args|);
  }

  // ---------------------------------------------------------------
  // Last-wins options (index.ts, lines 27-30 and 104-127)

  /** The flags that set `options.output`: `-o`/`--output`, and for `dl`
      also `-O`. */
  predicate SetsOutput(cmd: Command, a: string) {
    a == "-o" || a == "--output" || (cmd == Dl && a == "-O")
  }

  /** The output an output flag `a` with next argument `v` leaves. */
  function OutputSetBy(a: string, v: Option<string>): OutputName {
    if a == "-O" then KeepOriginal else OutputOf(v)
  }

  lemma DlxStepOutput(st: FetchState, a: string, v: Option<string>)
    ensures DlxStep(st, a, v).opts.output
         == if a == "-o" || a == "--output" then OutputOf(v) else st.opts.output
  {
  }

  lemma DlStepOutput(st: FetchState, a: string, v: Option<string>)
    ensures DlStep(st, a, v).opts.output
         == if a == "-o" || a == "--output" then OutputOf(v) else if a == "-O" then KeepOriginal else st.opts.output
  {
    if a == "-o" || a == "--output" {
    } else if a == "-O" {
    } else {
      assert DlStep(st, a, v).opts.output == st.opts.output by {
        if a == "" || a == "-d" || a == "--dir" || a == "--preserve-path" || a == "-f" || a == "--file-list" {
        } else if a == "--pattern" || a == "--glob" || a == "--exclude" || a == "--branch" || a == "-b" {
        } else if a == "--tag" || a == "-t" || a == "--commit" || a == "-c" {
        }
      }
    }
  }

  /** Only an output flag changes the output option. */
  lemma StepOutput(cmd: Command, st: FetchState, a: string, v: Option<string>)
    ensures FetchStep(cmd)(st, a, v).opts.output
         == if SetsOutput(cmd, a) then OutputSetBy(a, v) else st.opts.output
  {
    if cmd == Dl {
      DlStepOutput(st, a, v);
    } else {
      DlxStepOutput(st, a, v);
    }
  }

  /** The output option is the one set by the last output flag: a later
      `-O` resets a name given before it, and a later `-o` replaces either. */
  lemma {:induction false} OutputLastWins(cmd: Command, args: seq<string>, p: nat, n: nat)
    requires p < n <= |args| && Scanned(cmd, args, p) && SetsOutput(cmd, args[p])
    requires forall q :: p < q < n && Scanned(cmd, args, q) ==> !SetsOutput(cmd, args[q])
    ensures FetchBefore(cmd, args, n).opts.output == OutputSetBy(args[p], Arg(args, p + 1))
  {
    if n == p + 1 {
      StepOutput(cmd, FetchBefore(cmd, args, p), args[p], Arg(args, p + 1));
    } else {
      OutputLastWins(cmd, args, p, n - 1);
      if !Consumed(cmd, args, n - 1) {
        assert Scanned(cmd, args, n - 1);
        StepOutput(cmd, FetchBefore(cmd, args, n - 1), args[n - 1], Arg(args, n));
      }
    }
  }

  /** Without any output flag the output stays unset. */
  lemma {:induction false} OutputUnsetWithoutFlag(cmd: Command, args: seq<string>, n: nat)
    requires n <= |args|
    requires forall q :: 0 < q < n && Scanned(cmd, args, q) ==> !SetsOutput(cmd, args[q])
    ensures FetchBefore(cmd, args, n).opts.output == Unset
  {
    if n > 1 {
      OutputUnsetWithoutFlag(cmd, args, n - 1);
      StepOutput(cmd, FetchBefore(cmd, args, n - 1), args[n - 1], Arg(args, n));
    }
  }

  // ---------------------------------------------------------------
  // `--depth` (index.ts, lines 191-195)

  /** A decimal `--depth` value is parsed back to that number. */
  lemma DepthParsed(st: DirState, depth: nat)
    ensures DirStep(st, "--depth", Some(ToDecimal(depth))).opts.depth == Some(Num(depth))
  {
    ParseInt10Decimal(depth, "");
    assert ToDecimal(depth) + "" == ToDecimal(depth);
  }

  /** A `--depth` without a non-empty value changes nothing. */
  lemma DepthNeedsValue(st: DirState, v: Option<string>)
    requires !Truthy(v)
    ensures DirStep(st, "--depth", v) == st
  {
  }

  // ---------------------------------------------------------------
  // `-f` (index.ts, lines 31-36 and 112-117)

  lemma {:induction false} ConsumedPrefix(cmd: Command, args: seq<string>, more: seq<string>, k: nat)
    requires k <= |args|
    ensures Consumed(cmd, args + more, k) == Consumed(cmd, args, k)
  {
    if k >= 2 {
      ConsumedPrefix(cmd, args, more, k - 1);
      assert (args + more)[k - 1] == args[k - 1];
    }
  }

  lemma {:induction false} FetchBeforePrefix(cmd: Command, args: seq<string>, more: seq<string>, n: nat)
    requires n < |args|
    ensures FetchBefore(cmd, args + more, n) == FetchBefore(cmd, args, n)
  {
    if n > 1 {
      FetchBeforePrefix(cmd, args, more, n - 1);
      ConsumedPrefix(cmd, args, more, n - 1);
      assert (args + more)[n - 1] == args[n - 1];
      assert Arg(args + more, n) == Arg(args, n);
    }
  }

  lemma {:induction false} FirstStopPrefix(cmd: Command, args: seq<string>, more: seq<string>, n: nat)
    requires n < |args|
    ensures FirstStop(cmd, args + more, n) == FirstStop(cmd, args, n)
  {
    if n > 0 {
      FirstStopPrefix(cmd, args, more, n - 1);
      ConsumedPrefix(cmd, args, more, n - 1);
      assert (args + more)[n - 1] == args[n - 1];
      assert Arg(args + more, n) == Arg(args, n);
    }
  }

  lemma {:induction false} FirstStopStays(cmd: Command, args: seq<string>, p: nat, n: nat, m: nat)
    requires n <= m <= |args| && FirstStop(cmd, args, n) == Some(p)
    ensures FirstStop(cmd, args, m) == Some(p)
    decreases m - n
  {
    if m > n {
      FirstStopStays(cmd, args, p, n, m - 1);
    }
  }

  /** After a `-f` with a value, nothing that follows on the command line
      matters: the same list is handed over with the same options. */
  lemma StopIgnoresRest(cmd: Command, args: seq<string>, more: seq<string>)
    requires FetchArgs(cmd, args).FileList?
    ensures FetchArgs(cmd, args + more) == FetchArgs(cmd, args)
  {
    var p := FirstStop(cmd, args, |args|).value;
    FirstStopIsFirst(cmd, args, |args|);
    FirstStopIsFirst(cmd, args, p);
    assert FirstStop(cmd, args, p) == None;
    assert FirstStop(cmd, args, p + 1) == Some(p);
    FirstStopPrefix(cmd, args, more, p + 1);
    FirstStopStays(cmd, args + more, p, p + 1, |args + more|);
    FetchBeforePrefix(cmd, args, more, p);
    assert (args + more)[p + 1] == args[p + 1];
  }

  /** A `-f` as the very last argument has no value to read and does not
      stop the loop. */
  lemma TrailingFileFlag(cmd: Command, args: seq<string>)
    requires |args| >= 2 && Scanned(cmd, args, |args| - 1)
    requires args[|args| - 1] == "-f" || args[|args| - 1] == "--file-list"
    requires FirstStop(cmd, args, |args| - 1) == None
    ensures FetchArgs(cmd, args).Collected?
  {
  }
}
