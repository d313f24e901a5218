/** The top-level dispatch of `ghe <args>` (index.ts, lines 8-359): the
    download commands, cloning by URL, and the account shortcuts, tested
    in the order index.ts tests them. Everything a command then does is
    modelled elsewhere or left out; here it is only which entry point
    runs, with which arguments, and the exit code that follows. */
module Cli {
  import opened Wrappers
  import opened Strings
  import opened DownloadArgs
  import SC = Shortcuts

  /** The entry point one invocation reaches. */
  datatype Dispatch =
    | Menu                                      // no arguments: the interactive `main()`
    | Fetch(cmd: Command, action: FetchAction)  // `dlx`, and `dl`/`get`/`fetch-file`
    | DirDownload(dir: DirAction)               // `dl-dir`
    | ReleaseDownload(release: ReleaseAction)   // `dl-release`
    | Clone(repoUrl: string, targetDir: Option<string>)
    | SwitchTo(name: Option<string>)            // `None`: an empty name switches nothing
    | QuickSwitch
    | Status
    | ListAccounts
    | Shove(message: string)
    | ShoveNoCommit
    | Health
    | ActivityLog
    | LazyGit
    | Shortcuts(query: Option<string>, interactive: bool)
    | Other(command: string)                    // the git forwarding shortcuts, then `main()`
  {
    /** The code index.ts passes to `process.exit` once the entry point
        has returned normally; `None` where control goes on to code not
        modelled here. An entry point that calls `process.exit` itself, or
        throws, ends the process before this: `EndingOf` says how. */
    function ExitOnReturn(): Option<int> {
      match this
      case Menu => None
      case Other(_) => None
      case Fetch(_, action) => Some(action.ExitCode())
      case DirDownload(action) => Some(action.ExitCode())
      case ReleaseDownload(action) => Some(action.ExitCode())
      case _ => Some(0)
    }
  }

  /** The aliases of the `dl` command. */
  predicate IsFetchAlias(c: string) {
    c == "dl" || c == "get" || c == "fetch-file"
  }

  /** A first argument that is cloned as a repository. */
  predicate IsRepoUrl(c: string) {
    StartsWith(c, "http://") || StartsWith(c, "https://") || StartsWith(c, "git@") || StartsWith(c, "ssh://")
  }

  /** The arguments kept by the `shortcuts` search filter: those not led by `-`, in order. */
  function NonFlags(xs: seq<string>): seq<string> {
    if xs == [] then []
    else if StartsWith(xs[0], "-") then NonFlags(xs[1..])
    else [xs[0]] + NonFlags(xs[1..])
  }

  /** The search query of `ghe shortcuts <words>`: the kept words joined
      by spaces, and no query when that join is empty. */
  function ShortcutQuery(rest: seq<string>): Option<string> {
    var q := Join(NonFlags(rest), " ");
    if q == "" then None else Some(q)
  }

  /** index.ts, lines 8-359. */
  function Route(args: seq<string>): Dispatch {
    if |args| == 0 then Menu
    else
      var command := args[0];
      if command == "dlx" then Fetch(Dlx, FetchRoute(FetchArgs(Dlx, args)))
      else if IsFetchAlias(command) then Fetch(Dl, FetchRoute(FetchArgs(Dl, args)))
      else if command == "dl-dir" then DirDownload(DirRoute(DirArgs(args)))
      else if command == "dl-release" then ReleaseDownload(ReleaseRoute(ReleaseArgs(args)))
      else if IsRepoUrl(command) then Clone(command, Arg(args, 1))
      else if command == "switch" && |args| > 1 then SwitchTo(if args[1] == "" then None else Some(args[1]))
      else if command == "quick" then QuickSwitch
      else if command == "status" then Status
      else if command == "list" then ListAccounts
      else if command == "shove" && |args| > 1 then Shove(Join(args[1..], " "))
      else if command == "shovenc" then ShoveNoCommit
      else if command == "health" then Health
      else if command == "log" then ActivityLog
      else if command == "lazy" then LazyGit
      else if command == "shortcuts" || command == "shortcut" then
        if "-i" in args || "--interactive" in args then Shortcuts(None, true)
        else Shortcuts(ShortcutQuery(args[1..]), false)
      else Other(command)
  }

  /** Every repository URL prefix has its `@` or `:` at index 3, 4 or 5. */
  lemma RepoUrlSeparator(c: string)
    requires IsRepoUrl(c)
    ensures |c| >= 4 && (c[3] == '@' || c[3] == ':' || (|c| >= 5 && c[4] == ':') || (|c| >= 6 && c[5] == ':'))
  {
    if StartsWith(c, "http://") {
      assert c[4] == c[..7][4];
    } else if StartsWith(c, "https://") {
      assert c[5] == c[..8][5];
    } else if StartsWith(c, "git@") {
      assert c[3] == c[..4][3];
    } else {
      assert c[3] == c[..6][3];
    }
  }

  /** So a word without such a separator there is no repository URL. */
  lemma NoSeparatorNoRepoUrl(c: string)
    requires |c| < 4 || (c[3] != '@' && c[3] != ':' && (|c| < 5 || c[4] != ':') && (|c| < 6 || c[5] != ':'))
    ensures !IsRepoUrl(c)
  {
    if IsRepoUrl(c) {
      RepoUrlSeparator(c);
      assert false;
    }
  }

  /** None of the names of the download commands is a repository URL, so
      testing them first takes nothing away from cloning. */
  lemma DownloadCommandsAreNotUrls(c: string)
    requires c == "dlx" || IsFetchAlias(c) || c == "dl-dir" || c == "dl-release"
    ensures !IsRepoUrl(c)
  {
    NoSeparatorNoRepoUrl(c);
  }

  /** The invocations that clone are exactly those whose first argument
      has a repository URL prefix; the second argument, when there is
      one, is the target directory. */
  lemma CloneExactlyForRepoUrl(args: seq<string>)
    ensures Route(args).Clone? <==> |args| > 0 && IsRepoUrl(args[0])
    ensures Route(args).Clone? ==>
      Route(args).repoUrl == args[0] && Route(args).targetDir == (if |args| > 1 then Some(args[1]) else None)
  {
    if |args| > 0 {
      var c := args[0];
      if c == "dlx" || IsFetchAlias(c) || c == "dl-dir" || c == "dl-release" {
        DownloadCommandsAreNotUrls(c);
      }
    }
  }

  /** Once its downloader returns, a fetch download exits with 1 exactly
      when no file list ends the scan and no argument is left over as a
      URL. */
  lemma FetchExitCode(args: seq<string>)
    requires |args| > 0 && (args[0] == "dlx" || IsFetchAlias(args[0]))
    ensures Route(args).Fetch? && Route(args).ExitOnReturn().Some?
    ensures var cmd := if args[0] == "dlx" then Dlx else Dl;
      Route(args).cmd == cmd &&
      (Route(args).ExitOnReturn() == Some(1) <==> FetchArgs(cmd, args) == Collected(FetchArgs(cmd, args).opts, []))
  {
  }

  /** `ghe switch` needs a second argument; an empty one switches to no
      account. After the entry point returns, index.ts exits with 0;
      `SwitchEnds` says when `switchToAccount` exits with 1 first. */
  lemma SwitchNeedsName(args: seq<string>)
    requires |args| > 0 && args[0] == "switch"
    ensures |args| == 1 ==> Route(args) == Other("switch")
    ensures |args| > 1 ==> Route(args) == SwitchTo(if args[1] == "" then None else Some(args[1]))
    ensures |args| > 1 ==> Route(args).ExitOnReturn() == Some(0)
  {
    NoSeparatorNoRepoUrl("switch");
  }

  /** `ghe shove` joins every argument after it, in order, with single spaces. */
  lemma ShoveMessage(args: seq<string>)
    requires |args| > 1 && args[0] == "shove"
    ensures Route(args) == Shove(Join(args[1..], " "))
  {
    NoSeparatorNoRepoUrl("shove");
  }

  /** The kept words are exactly the words not led by `-`. */
  lemma {:induction false} NonFlagsKeep(xs: seq<string>, w: string)
    ensures w in NonFlags(xs) <==> w in xs && !StartsWith(w, "-")
  {
    if xs != [] {
      NonFlagsKeep(xs[1..], w);
      assert xs == [xs[0]] + xs[1..];
    }
  }

  /** There is no search query exactly when no word is kept, or the only
      kept word is empty. */
  lemma NoQueryWhenNothingKept(rest: seq<string>)
    ensures ShortcutQuery(rest) == None <==> NonFlags(rest) == [] || NonFlags(rest) == [""]
    ensures ShortcutQuery(rest).Some? ==> ShortcutQuery(rest).value == Join(NonFlags(rest), " ")
  {
    JoinEmpty(NonFlags(rest), " ");
  }

  /** `-i` or `--interactive` anywhere selects the interactive list and
      drops the query; otherwise the list is searched by the query. */
  lemma ShortcutsMode(args: seq<string>)
    requires |args| > 0 && (args[0] == "shortcuts" || args[0] == "shortcut")
    ensures Route(args).Shortcuts?
    ensures Route(args).interactive <==> "-i" in args || "--interactive" in args
    ensures Route(args).interactive ==> Route(args).query == None
    ensures !Route(args).interactive ==> Route(args).query == ShortcutQuery(args[1..])
  {
    NoSeparatorNoRepoUrl(args[0]);
  }

  // ---------------------------------------------------------------
  // How an invocation ends (index.ts, lines 275-340)

  /** What an entry point does: return normally, call `process.exit`
      itself, or throw. */
  datatype EntryRun = Returned | ExitedItself(code: int) | Threw(message: string)

  /** How the process ends: `process.exit` with a code, or an error that
      escapes the top-level `await`. */
  datatype Ending = ExitsWith(code: int) | Uncaught(message: string)

  /** The ending of dispatch `d` whose entry point ran as `run`; `None`
      where control goes on to code not modelled here. */
  function EndingOf(d: Dispatch, run: EntryRun): Option<Ending> {
    match run
    case ExitedItself(code) => Some(ExitsWith(code))
    case Threw(message) => Some(Uncaught(message))
    case Returned => if d.ExitOnReturn().Some? then Some(ExitsWith(d.ExitOnReturn().value)) else None
  }

  /** `switchToAccount` exits with 1 itself, or returns to go on switching. */
  function SwitchRun(o: SC.SwitchOutcome): EntryRun {
    if o.Exit().Some? then ExitedItself(o.Exit().value) else Returned
  }

  /** `shove` and `shoveNoCommit` exit with their code unless it is 0. */
  function ShoveRun(r: SC.ShoveRun): EntryRun {
    if r.exitCode == 0 then Returned else ExitedItself(r.exitCode)
  }

  /** `lazyGit` exits with 1 outside a repository and without lazygit, and
      rejects when lazygit fails. */
  function LazyRun(o: SC.LazyOutcome): EntryRun {
    match o
    case LazyNotInRepo => ExitedItself(1)
    case LazyNotInstalled => ExitedItself(1)
    case LazyDone => Returned
    case LazyFailed(message) => Threw(message)
  }

  /** `ghe switch <name>` exits with 1 exactly when a non-empty name is
      given outside a repository or matches no account, and with 0
      otherwise (the switch flow that follows a match is not modelled). */
  lemma SwitchEnds(args: seq<string>, inRepo: bool, accounts: seq<SC.Account>)
    requires |args| > 1 && args[0] == "switch"
    ensures var run := if args[1] == "" then Returned else SwitchRun(SC.SwitchToAccount(inRepo, accounts, args[1]));
      EndingOf(Route(args), run)
      == Some(ExitsWith(if args[1] != "" && (!inRepo || SC.FindIgnoringCase(accounts, args[1]).None?) then 1 else 0))
  {
    SwitchNeedsName(args);
  }

  /** `ghe shove <words>` exits with 1 exactly when it runs outside a
      repository, the joined message is blank, or a step throws; with 0
      otherwise. */
  lemma ShoveEnds(args: seq<string>, inRepo: bool, throwsAt: Option<nat>, shouldPush: bool,
                  active: Option<string>, remote: Option<SC.RemoteInfo>)
    requires |args| > 1 && args[0] == "shove"
    ensures var message := Join(args[1..], " ");
      EndingOf(Route(args), ShoveRun(SC.Shove(inRepo, message, throwsAt, shouldPush, active, remote)))
      == Some(ExitsWith(if !inRepo || !SC.MessageGiven(message) ||
                           (throwsAt.Some? && throwsAt.value < (if shouldPush then 4 else 2)) then 1 else 0))
  {
    ShoveMessage(args);
    var message := Join(args[1..], " ");
    SC.CommandsInOrder(inRepo, ["git", "commit", "-m", message], throwsAt, shouldPush, active, remote);
  }

  /** `ghe shovenc` exits with 1 exactly when it runs outside a repository
      or a step throws. */
  lemma ShoveNoCommitEnds(args: seq<string>, inRepo: bool, throwsAt: Option<nat>, shouldPush: bool,
                          active: Option<string>, remote: Option<SC.RemoteInfo>)
    requires |args| > 0 && args[0] == "shovenc"
    ensures EndingOf(Route(args), ShoveRun(SC.ShoveNoCommit(inRepo, throwsAt, shouldPush, active, remote)))
      == Some(ExitsWith(if !inRepo || (throwsAt.Some? && throwsAt.value < (if shouldPush then 4 else 2)) then 1 else 0))
  {
    NoSeparatorNoRepoUrl("shovenc");
    SC.CommandsInOrder(inRepo, ["git", "commit", "--allow-empty-message", "-m", ""], throwsAt, shouldPush, active, remote);
  }

  /** `ghe lazy` exits with 1 outside a repository or without lazygit,
      with 0 after lazygit exits with 0 or by a signal, and otherwise ends
      with the rejection escaping the top-level `await`. */
  lemma LazyEnds(args: seq<string>, inRepo: bool, whichCode: int, ended: SC.ChildEnd)
    requires |args| > 0 && args[0] == "lazy"
    ensures var e := EndingOf(Route(args), LazyRun(SC.LazyGit(inRepo, whichCode, ended)));
      (e == Some(ExitsWith(1)) <==> !inRepo || whichCode != 0) &&
      (e == Some(ExitsWith(0)) <==> inRepo && whichCode == 0 && (ended == SC.ChildExited(None) || ended == SC.ChildExited(Some(0)))) &&
      (e.Some? && e.value.Uncaught? <==> inRepo && whichCode == 0 && !(ended == SC.ChildExited(None) || ended == SC.ChildExited(Some(0))))
  {
    assert Route(args) == LazyGit by {
      NoSeparatorNoRepoUrl("lazy");
    }
    LazyGitEnds(inRepo, whichCode, ended);
  }

  lemma LazyGitEnds(inRepo: bool, whichCode: int, ended: SC.ChildEnd)
    ensures var e := EndingOf(LazyGit, LazyRun(SC.LazyGit(inRepo, whichCode, ended)));
      (e == Some(ExitsWith(1)) <==> !inRepo || whichCode != 0) &&
      (e == Some(ExitsWith(0)) <==> inRepo && whichCode == 0 && (ended == SC.ChildExited(None) || ended == SC.ChildExited(Some(0)))) &&
      (e.Some? && e.value.Uncaught? <==> inRepo && whichCode == 0 && !(ended == SC.ChildExited(None) || ended == SC.ChildExited(Some(0))))
  {
    var o := SC.LazyGit(inRepo, whichCode, ended);
    if !inRepo || whichCode != 0 {
      assert LazyRun(o) == ExitedItself(1);
    } else {
      match ended
      case SpawnFailed(message) =>
        assert LazyRun(o) == Threw(message);
      case ChildExited(code) =>
        if code == None || code == Some(0) {
          assert LazyRun(o) == Returned;
        } else {
          assert LazyRun(o) == Threw(o.message);
        }
    }
  }
}
