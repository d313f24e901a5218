# ghe: a verified model of the command line's decision logic

`ghe` is a command-line tool for managing several GitHub accounts. It also
downloads files, directories and releases, and it installs and launches
lazygit. This project models in Dafny the parts of `ghe` that decide
things from their inputs, and proves what those decisions mean:

- **The download commands** (`index.ts`). `dlx`, `dl` (also `get` and
  `fetch-file`), `dl-dir` and `dl-release` each have a hand-written
  argument loop. The features covered:
  - flags that read the next argument;
  - options where the last one wins;
  - `Key: Value` headers;
  - bare arguments collected as URLs;
  - the early exit on `-f <list>`.

  Each loop is a `method` with a `while` loop. It is proved equal to a
  position-by-position specification (`DownloadArgs`). The lemmas in
  `DownloadFacts` then state what that specification means. `LastWins`
  proves, for every option a loop sets from the next argument, that the
  last flag wins, and that a dash argument no test names changes nothing. The routing
  after each loop is modelled too: usage error, single, multiple or
  pattern download, and the exit status.
- **The top-level dispatch** of `ghe <args>` (`Cli`). This covers:
  - the order in which the commands are tested;
  - the clone-by-URL rule;
  - `switch` and `shove`;
  - the `shortcuts` search and interactive modes;
  - how `switch`, `shove`, `shovenc` and `lazy` end, whether their entry
    point returns, exits by itself or throws.
- **Quick switch, switch, shove, status and `ghe lazy`** (`Shortcuts`):
  - the recent-account list, kept without duplicates;
  - the three-tier ranking comparator, with an in-place sort of the
    accounts array that is proved to rank them and to permute them;
  - the choice labels;
  - the case-insensitive account lookup;
  - the commit and push sequence of `shove`/`shovenc`, and the activity
    entry it logs;
  - the owner shown by `status`;
  - lazygit's exit-code rule.
- **The lazygit installer** (`Lazygit`):
  - the release-archive table and its fallbacks;
  - the extractor choice;
  - the Windows zip fallback chain, as a method with the source's
    `extracted` flag;
  - the redirect and status handling of `downloadFile`, as a recursive
    method;
  - the install sequence;
  - version parsing;
  - where `ensureLazygit` looks first.

The external world is passed in as parameters:
- the processes run (`exec` maps a command line to its exit code and
  output, or to the error it threw);
- the HTTP replies (`get`);
- whether files exist;
- the platform flags;
- the detected account and the remote;
- the user's answers to prompts.

`Strings` models the JavaScript string built-ins the source relies on:
`trim`, `startsWith`/`endsWith`, `split`/`join`, `indexOf`,
`toLowerCase`, `parseInt(_, 10)` and `localeCompare`. `Wrappers` holds
`Option` and `Result`. An absent array element (`args[++i]` past the end)
and `undefined` are modelled as `None`.

## Model

| member | source | states |
|---|---|---|
| Strings.Trim | index.ts:52-54 | `trim` drops whitespace from both ends; the result neither starts nor ends with whitespace, and it is empty exactly when the input is all whitespace |
| Strings.TrimIsInfix | src/shortcuts.ts:64 | what `trim` keeps is one contiguous piece of the input, with only whitespace on either side of it |
| Strings.TrimStart | src/shortcuts.ts:250 | the result is a suffix of the input; everything dropped is whitespace, and the first character kept is not |
| Strings.TrimEnd | src/lazygitManager.ts:372-373 | the result is a prefix of the input; everything dropped is whitespace, and the last character kept is not |
| Strings.IndexOf | index.ts:50 | the index of the first occurrence of a character, or none exactly when the character is absent |
| Strings.SplitFirstJoined | index.ts:50-52 | splitting at the first separator and joining the rest back returns the head and the untouched tail, later separators included |
| Strings.SplitFirst | index.ts:50 | `split(sep)` taken apart as `[head, ...rest]`; no contract of its own, its meaning is `Strings.SplitFirstJoined` |
| Strings.Join | index.ts:309 | `join(sep)`; no contract of its own, its meaning is `Strings.JoinEmpty` and `Cli.ShoveMessage` |
| Strings.JoinEmpty | index.ts:355-356 | a join with a non-empty separator is empty exactly when there are no words, or one empty word |
| Strings.ToLower | src/shortcuts.ts:96 | ASCII upper-case letters are lowered; every other character is unchanged, and the length is kept |
| Strings.ToDecimal | src/lazygitManager.ts:107 | a natural number is printed as digits with no leading zero, and those digits read back as the same number |
| Strings.DigitPrefix | index.ts:195 | the longest run of decimal digits that starts a string |
| Strings.ParseInt10 | index.ts:195 | `parseInt(_, 10)`: leading whitespace, an optional sign, then the digit prefix, `NaN` without one; no contract of its own, its meaning is `Strings.ParseInt10Decimal` |
| Strings.ParseInt10Decimal | index.ts:195 | `parseInt(_, 10)` reads a printed number back, whatever follows it that is not a digit |
| Strings.DigitPrefixOf | index.ts:195 | the digit run of digits followed by a non-digit is exactly those digits |
| Strings.Compare | src/shortcuts.ts:51 | the three-way comparison is -1, 0 or 1, and 0 exactly when the strings are equal |
| Strings.CompareFlip | src/shortcuts.ts:51 | swapping the operands negates the comparison |
| Strings.CompareTransitive | src/shortcuts.ts:51 | the comparison is transitive |
| Strings.FirstLine | src/lazygitManager.ts:372-373 | the first `\n`-separated line is a prefix with no newline in it, and it is followed by a newline unless it is the whole string |
| DownloadArgs.DlxTableInTestOrder | index.ts:25-59 | helper: the value-flag set read in the loop's test order |
| DownloadArgs.DlTableInTestOrder | index.ts:102-150 | helper: the value-flag set read in the loop's test order |
| DownloadArgs.DirTableInTestOrder | index.ts:188-206 | helper: the value-flag set read in the loop's test order |
| DownloadArgs.ReleaseTableInTestOrder | index.ts:233-244 | helper: the value-flag set read in the loop's test order |
| DownloadArgs.WalkAdvance | index.ts:23-60 | moving from a scanned position to the next one applies exactly that position's step, and the position reached is not a flag's value |
| DownloadArgs.AddHeader | index.ts:47-56 | the `-H` step on the header map; no contract of its own, its meaning is `DownloadFacts.HeaderSplitsAtFirstColon`, `HeaderWithoutColon`, `HeaderEmptyKeyIgnored` and `LastWins.AddHeaderLookup` |
| DownloadArgs.FetchTailStep | index.ts:37-59 | the tests `dlx` and `dl` share after their own flags; no contract of its own, stated by `LastWins.TailStepText` and `LastWins.TailHeaders` |
| DownloadArgs.DlxStep | index.ts:24-59 | one `dlx` argument; no contract of its own, stated by `DownloadFacts.DlxStepOutput`, `LastWins.DlxStepText` and `DownloadFacts.FetchStepUrls` |
| DownloadArgs.DlStep | index.ts:101-117 | one `dl` argument, up to `-f`; no contract of its own, stated by `DownloadFacts.DlStepOutput` and `LastWins.DlStepText` |
| DownloadArgs.DlLaterStep | index.ts:118-150 | the `dl` repository filters, then the shared tail; no contract of its own, stated by `LastWins.DlLaterStepText` |
| DownloadArgs.FetchLoop | index.ts:23-60 | the `dlx`/`dl` loop as a recursive function; no contract of its own, its meaning is `DownloadArgs.FetchLoopMeaning` |
| DownloadArgs.FetchArgs | index.ts:19-60 | the specification of the `dlx`/`dl` loops' result; no contract of its own, stated by `DownloadFacts.CollectedUrls` and `DownloadFacts.StopIgnoresRest` |
| DownloadArgs.DirStep | index.ts:187-207 | one `dl-dir` argument; no contract of its own, stated by `LastWins.DirStepText` and `LastWins.DirStepDepth` |
| DownloadArgs.ReleaseStep | index.ts:232-245 | one `dl-release` argument; no contract of its own, stated by `LastWins.ReleaseStepText` |
| DownloadArgs.RunMeaning | index.ts:186-208 | a loop without an early exit, run from any reachable position with the state before it, ends in the fold over all positions |
| DownloadArgs.FirstStop | index.ts:31-36 | the position found is a `-f`/`--file-list` with a non-empty value, at a scanned position |
| DownloadArgs.FirstStopIsFirst | index.ts:112-117 | no stop comes before the one `FirstStop` finds; when none is found, there is no stop at all |
| DownloadArgs.NoStopAdvance | index.ts:23 | stepping past a position that does not stop keeps "no stop so far" |
| DownloadArgs.StopIsFirst | index.ts:31-36 | a stop reached with no stop before it is the first stop of the whole argument list |
| DownloadArgs.FetchLoopTurn | index.ts:100-117 | one turn of the loop: a file list with a value ends it, and anything else steps to the next argument |
| DownloadArgs.FetchLoopMeaning | index.ts:23-60 | run from any reachable position with the state before it, the loop's result is `FetchArgs` |
| DownloadArgs.FetchLoopAdvance | index.ts:100-151 | one step of the loop keeps the invariants `FetchLoopMeaning` needs |
| DownloadArgs.DlxArgument | index.ts:24-59 | one pass of the `dlx` loop body: the index it leaves, the new options and URLs as the step function gives them, and the file list exactly for `-f`/`--file-list` with a truthy value; the shared tail is handed to `FetchTailArgument` |
| DownloadArgs.FetchTailArgument | index.ts:37-59 | one pass of the tests both loops end with: the index moves on by one more exactly for `-A` and `-H`, and the state is the shared tail's step |
| DownloadArgs.ParseDlxArgs | index.ts:19-60 | the `dlx` loop's result (file list, or options and URLs) is `FetchArgs(Dlx, args)` |
| DownloadArgs.DlArgument | index.ts:101-117 | one pass of the `dl` loop body for the flags up to `-f`; the later flags are handed to `DlLaterArgument` |
| DownloadArgs.DlLaterArgument | index.ts:118-150 | one pass of the `dl` loop body for the repository filters after `-f`, the rest handed to `FetchTailArgument`: the index left and the new state |
| DownloadArgs.ParseDlArgs | index.ts:96-151 | the `dl`/`get`/`fetch-file` loop's result is `FetchArgs(Dl, args)` |
| DownloadArgs.DirArgument | index.ts:187-207 | one pass of the `dl-dir` loop body: the index left and the state after the step |
| DownloadArgs.DirArgs | index.ts:183-208 | the specification of the `dl-dir` loop's result, the fold of `DirStep` over the arguments; no contract of its own, its meaning is the contract of `DownloadArgs.ParseDlDirArgs` and the lemmas `DownloadFacts.DirUrlIsLast`, `LastWins.DirTextLastWins` and `LastWins.DepthLastWins` |
| DownloadArgs.ParseDlDirArgs | index.ts:183-208 | the `dl-dir` loop's options and URL are `DirArgs(args)` |
| DownloadArgs.ReleaseArgument | index.ts:232-245 | one pass of the `dl-release` loop body: the index left and the state after the step |
| DownloadArgs.ReleaseArgs | index.ts:228-246 | the specification of the `dl-release` loop's result, the fold of `ReleaseStep` over the arguments; no contract of its own, its meaning is the contract of `DownloadArgs.ParseDlReleaseArgs` and the lemmas `DownloadFacts.ReleaseUrlIsLast` and `LastWins.ReleaseTextLastWins` |
| DownloadArgs.ParseDlReleaseArgs | index.ts:228-246 | the `dl-release` loop's options and URL are `ReleaseArgs(args)` |
| DownloadArgs.FetchRoute | index.ts:62-83 | a file list goes to the list download; no URL is the usage error with exit 1; one non-empty URL is the single download; otherwise the multiple download; each gets the options gathered |
| DownloadArgs.FetchAction.ExitCode | index.ts:73-85 | the code a `dlx`/`dl` download exits with once it returns; no contract of its own, stated by `DownloadArgs.FetchRoute`: 1 exactly for the usage error, 0 otherwise |
| DownloadArgs.DirRoute | index.ts:210-220 | no URL is the usage error with exit 1; a truthy pattern selects the pattern downloader; otherwise the directory downloader |
| DownloadArgs.DirAction.ExitCode | index.ts:210-222 | the code a `dl-dir` download exits with once it returns; no contract of its own, stated by `DownloadArgs.DirRoute`: 1 exactly without a URL |
| DownloadArgs.ReleaseRoute | index.ts:248-254 | no URL is the usage error with exit 1; otherwise the release download with the options gathered |
| DownloadArgs.ReleaseAction.ExitCode | index.ts:248-255 | the code a `dl-release` download exits with once it returns; no contract of its own, stated by `DownloadArgs.ReleaseRoute`: 1 exactly without a URL |
| DownloadFacts.HeaderSplitsAtFirstColon | index.ts:47-56 | `-H key:rest` maps the trimmed key to the trimmed rest, later colons kept |
| DownloadFacts.HeaderWithoutColon | index.ts:138-147 | a header without a colon maps its trimmed text to the empty value |
| DownloadFacts.HeaderEmptyKeyIgnored | index.ts:50-51 | a header whose name part is empty, such as `:x`, adds nothing |
| DownloadFacts.HeaderLastWins | index.ts:53-54 | of two headers with the same trimmed name, the later value wins |
| DownloadFacts.FetchStepUrls | index.ts:57-59 | a non-empty argument not led by `-` is appended to the URLs and changes no option; any other argument leaves the URLs alone |
| DownloadFacts.FetchUrls | index.ts:148-150 | the URLs gathered so far are exactly the URL-like arguments at scanned positions, in input order |
| DownloadFacts.CollectedUrls | index.ts:57-59 | when no `-f` stops the loop, the URLs handed over are those arguments |
| DownloadFacts.BareArgsNonEmpty | index.ts:25 | every URL collected is non-empty |
| DownloadFacts.ValueFlagReadsNext | index.ts:104-127 | a value flag reads exactly the next argument, which is never scanned itself; the one after that is scanned again |
| DownloadFacts.FetchRouteByCount | index.ts:153-173 | zero URLs gives the usage error, exactly one gives the single download, two or more give the multiple download |
| DownloadFacts.DirUrlIsLast | index.ts:205-207 | the `dl-dir` URL is the last URL-like argument, or empty when there is none |
| DownloadFacts.ReleaseUrlIsLast | index.ts:243-245 | the `dl-release` URL is the last URL-like argument, or empty when there is none |
| DownloadFacts.NoUrlExactlyWhenNoBareArg | index.ts:210-214 | `dl-dir` and `dl-release` exit with 1 exactly when no URL-like argument was given |
| DownloadFacts.DlxStepOutput | index.ts:27-28 | in `dlx` only `-o`/`--output` changes the output, to the next argument |
| DownloadFacts.DlStepOutput | index.ts:104-107 | in `dl`, `-o`/`--output` sets the output to the next argument and `-O` resets it to keep the original name; nothing else changes it |
| DownloadFacts.StepOutput | index.ts:104-107 | for either command, a step that is not an output flag leaves the output as it was |
| DownloadFacts.OutputLastWins | index.ts:104-107 | the output option is the one set by the last output flag scanned |
| DownloadFacts.OutputUnsetWithoutFlag | index.ts:27-28 | without an output flag, the output stays unset |
| LastWins.LastSetWins | index.ts:23-60 | for any loop and any part of its state that a step sets exactly at certain arguments: after position `n` it holds what the last such scanned position before `n` set |
| LastWins.NeverSetKeepsStart | index.ts:23-60 | a part of the state that no scanned position before `n` sets keeps its initial value |
| LastWins.TailStepText | index.ts:37-59 | in the shared tail only `-A`/`--user-agent` sets a text option, the user agent, to the next argument |
| LastWins.DlxStepText | index.ts:24-59 | in `dlx`, `-d` sets the output directory and `-A` the user agent to the next argument; no other argument changes them, and the `dl`-only filters are never set |
| LastWins.DlLaterStepText | index.ts:118-150 | the `dl` repository filters each set their own option to the next argument and touch no other |
| LastWins.DlStepText | index.ts:101-150 | in `dl`, each text option changes exactly at its own flags, to the next argument |
| LastWins.StepText | index.ts:104-150 | for either command, one step sets a text option to the next argument exactly at its flags and keeps it otherwise |
| LastWins.FetchTextLastWins | index.ts:108-137 | `-d`, `-A`, `--pattern`/`--glob`, `--exclude`, `--branch`, `--tag` and `--commit`: the last flag scanned wins, with the argument after it (`undefined` at the end) |
| LastWins.FetchTextUnsetWithoutFlag | index.ts:97 | an option whose flag is never scanned stays `undefined` |
| LastWins.AddHeaderLookup | index.ts:47-56 | adding a `-H` value changes the entry of the name it adds, to its trimmed value, and no other entry |
| LastWins.TailHeaders | index.ts:47-56 | in the shared tail only `-H`/`--header` changes the header map, by adding its value |
| LastWins.StepHeader | index.ts:138-147 | for either command, a step changes a header name's entry exactly when it is a `-H` naming that header |
| LastWins.HeaderKeyLastWins | index.ts:138-147 | a header name holds the value of the last `-H` naming it, whatever `-H` values for other names come after |
| LastWins.DirStepText | index.ts:190-202 | in `dl-dir`, `-d`, `--branch`, `--pattern` and `--exclude` each set their option to the next argument and touch no other |
| LastWins.DirTextLastWins | index.ts:190-202 | in `dl-dir` the last of each of those flags wins, with the argument after it |
| LastWins.DirStepDepth | index.ts:191-196 | only `--depth` with a non-empty value changes the depth, to the value's `parseInt` |
| LastWins.DepthLastWins | index.ts:191-196 | the depth is the parse of the value of the last `--depth` with a non-empty value; an empty or missing value keeps the earlier depth |
| LastWins.ReleaseStepText | index.ts:235-240 | in `dl-release`, `--asset`, `--version`/`-v` and `-d` each set their option to the next argument and touch no other |
| LastWins.ReleaseTextLastWins | index.ts:235-240 | in `dl-release` the last of each of those flags wins, with the argument after it |
| LastWins.UnknownFetchFlagIgnored | index.ts:57-59 | a dash argument the `dlx`/`dl` loop does not test for changes neither the options nor the URLs |
| LastWins.UnknownDirFlagIgnored | index.ts:205-207 | the same for `dl-dir`: the options and the URL are unchanged |
| LastWins.UnknownReleaseFlagIgnored | index.ts:243-245 | the same for `dl-release` |
| DownloadFacts.DepthParsed | index.ts:192-196 | a decimal `--depth` value parses to that number |
| DownloadFacts.DepthNeedsValue | index.ts:193-194 | a `--depth` without a non-empty value changes nothing |
| DownloadFacts.ConsumedPrefix | index.ts:23 | whether a position is read as a value depends only on the arguments before it |
| DownloadFacts.FetchBeforePrefix | index.ts:100 | the state before a position depends only on the arguments before it |
| DownloadFacts.FirstStopPrefix | index.ts:112-117 | whether a stop occurs before a position depends only on the arguments before it |
| DownloadFacts.FirstStopStays | index.ts:31-36 | a stop found stays the first stop however far the search goes |
| DownloadFacts.StopIgnoresRest | index.ts:112-117 | after `-f <list>`, appending any arguments changes nothing in the result |
| DownloadFacts.TrailingFileFlag | index.ts:31-36 | a `-f` as the last argument, with no value to read, does not stop the loop |
| Cli.RepoUrlSeparator | index.ts:259-264 | helper: where each repository URL prefix has its separator |
| Cli.NoSeparatorNoRepoUrl | index.ts:259-264 | a word without such a separator there is no repository URL |
| Cli.NonFlags | index.ts:355 | the words the `shortcuts` filter keeps; no contract of its own, its meaning is `Cli.NonFlagsKeep` |
| Cli.ShortcutQuery | index.ts:355-356 | the search query; no contract of its own, its meaning is `Cli.NoQueryWhenNothingKept` |
| Cli.Route | index.ts:9-359 | which entry point runs, in the order index.ts tests the commands; no contract of its own, stated by the `Cli` lemmas below |
| Cli.Dispatch.ExitOnReturn | index.ts:62-359 | the code index.ts passes to `process.exit` after an entry point returns: the download's own code for the three download commands, 0 for the other modelled commands, none for the menu and the unmodelled shortcuts; no contract of its own, stated by `Cli.FetchExitCode` and `Cli.SwitchNeedsName` |
| Cli.DownloadCommandsAreNotUrls | index.ts:12-225 | no download command word is a repository URL, so testing them first takes nothing away from cloning |
| Cli.CloneExactlyForRepoUrl | index.ts:259-270 | an invocation clones exactly when its first argument has a repository URL prefix; the second argument, if any, is the target directory |
| Cli.FetchExitCode | index.ts:62-85 | once its downloader returns, a `dlx`/`dl` invocation exits with 1 exactly when no file list stops the loop and no URL is collected |
| Cli.SwitchNeedsName | index.ts:275-283 | `switch` alone is not the switch command; with a name it switches, none for an empty name; once the entry point returns, index.ts exits with 0 |
| Cli.ShoveMessage | index.ts:306-310 | `shove` joins all later arguments with single spaces into the commit message |
| Cli.NonFlagsKeep | index.ts:355 | the search filter keeps exactly the words not led by `-` |
| Cli.NoQueryWhenNothingKept | index.ts:355-356 | there is no query exactly when nothing, or just an empty word, is kept; otherwise the query is the kept words joined by spaces |
| Cli.ShortcutsMode | index.ts:348-356 | `-i`/`--interactive` anywhere selects interactive mode with no query; otherwise the list is searched with the query |
| Cli.EndingOf | index.ts:275-340 | how the process ends: an entry point's own `process.exit`, an error escaping the top-level `await`, or index.ts's code after a return; no contract of its own, stated by `Cli.SwitchEnds`, `Cli.ShoveEnds`, `Cli.ShoveNoCommitEnds` and `Cli.LazyEnds` |
| Cli.SwitchRun | src/shortcuts.ts:86-102 | `switchToAccount` exits with 1 itself outside a repository or without a match, and otherwise returns; no contract of its own, stated by `Cli.SwitchEnds` |
| Cli.ShoveRun | src/shortcuts.ts:242-300 | `shove`/`shoveNoCommit` exit with 1 themselves on a failed check or a throw, and otherwise return; no contract of its own, stated by `Cli.ShoveEnds` and `Cli.ShoveNoCommitEnds` |
| Cli.LazyRun | src/shortcuts.ts:417-490 | `lazyGit` exits with 1 itself outside a repository or without lazygit, rejects when lazygit fails, and otherwise returns; no contract of its own, stated by `Cli.LazyEnds` and `Cli.LazyGitEnds` |
| Cli.SwitchEnds | index.ts:275-283 | `ghe switch <name>` exits with 1 exactly when a non-empty name is given outside a repository or matches no account (`switchToAccount` exits itself), and with 0 otherwise |
| Cli.ShoveEnds | index.ts:306-312 | `ghe shove <words>` exits with 1 exactly when it runs outside a repository, the joined message is blank, or a step of add, commit, push and its bookkeeping throws; with 0 otherwise |
| Cli.ShoveNoCommitEnds | index.ts:314-319 | `ghe shovenc` exits with 1 exactly when it runs outside a repository or a step throws |
| Cli.LazyEnds | index.ts:335-340 | `ghe lazy` exits with 1 outside a repository or without lazygit, with 0 after lazygit exits with 0 or by a signal, and otherwise ends with the rejection escaping the top-level `await` |
| Cli.LazyGitEnds | src/shortcuts.ts:417-490 | the same, read off `lazyGit`'s outcome for the `lazy` entry point |
| Shortcuts.Distinct | src/shortcuts.ts:39-41 | the recent names hold the same names as the activity list, each exactly once |
| Shortcuts.IndexOfName | src/shortcuts.ts:45-46 | `indexOf` gives -1 exactly when the name is absent, and otherwise its first index |
| Shortcuts.DistinctKeepsFirstOccurrenceOrder | src/shortcuts.ts:39-41 | after deduplication, two names keep the order of their first occurrences |
| Shortcuts.RankTiers | src/shortcuts.ts:44-52 | recent before non-recent; two recent ones by their place in the recent list; two others by name |
| Shortcuts.RankCompare | src/shortcuts.ts:44-52 | the comparator; no contract of its own, its meaning is `Shortcuts.RankTiers`, `RankFlip`, `RankTiesSameName` and `RankTransitive` |
| Shortcuts.RecentRankedByFirstEntry | src/shortcuts.ts:37-48 | of two recent accounts, the one whose name occurs first among the activity entries ranks first |
| Shortcuts.RankFlip | src/shortcuts.ts:44-52 | the comparator is antisymmetric: swapping its arguments negates it |
| Shortcuts.RankTiesSameName | src/shortcuts.ts:44-52 | the comparator gives 0 exactly for accounts with the same name |
| Shortcuts.RankTransitive | src/shortcuts.ts:44-52 | the comparator is transitive |
| Shortcuts.AdjacentRankedIsRanked | src/shortcuts.ts:44 | ranking between neighbours gives ranking between any two positions |
| Shortcuts.SortInPlace | src/shortcuts.ts:44 | the in-place sort leaves neighbours ordered by the comparator and the array a permutation of itself |
| Shortcuts.Insert | src/shortcuts.ts:44 | inserting one element into the sorted prefix keeps the prefix sorted and the array a permutation |
| Shortcuts.SortAccounts | src/shortcuts.ts:44-52 | `cfg.accounts.sort(...)` leaves the array ranked and a permutation of the accounts it held |
| Shortcuts.RecentAccountsFirst | src/shortcuts.ts:43-52 | in a ranked list every account before a recent one is recent itself |
| Shortcuts.Choices | src/shortcuts.ts:60-65 | one choice per account, in order, with the account's name as value and its user name and email, trimmed, as description |
| Shortcuts.Title | src/shortcuts.ts:61 | an entry's title; no contract of its own, its meaning is `Shortcuts.TitleMarks` |
| Shortcuts.TitleMarks | src/shortcuts.ts:61 | the title starts with the name; it carries ` (current)` exactly when the account is the active one, and ends with the star exactly when it is recent |
| Shortcuts.FindIgnoringCase | src/shortcuts.ts:95-97 | the first account whose name equals the argument ignoring case; none exactly when no name matches |
| Shortcuts.ToLowerIdempotent | src/shortcuts.ts:96 | lowering twice is lowering once |
| Shortcuts.FindIgnoresTypedCase | src/shortcuts.ts:95-97 | the lookup finds the same account however the argument's case is typed |
| Shortcuts.Names | src/shortcuts.ts:101 | the names listed, one per account, in order |
| Shortcuts.SwitchToAccount | src/shortcuts.ts:86-103 | exits with 1 exactly when not in a repository or no name matches; a match is the first matching account; otherwise the message names the argument and all accounts are listed |
| Shortcuts.MessageGivenIffNonBlank | src/shortcuts.ts:250 | a message is accepted exactly when it holds a character that is not whitespace |
| Shortcuts.MessageGiven | src/shortcuts.ts:250 | the message test; no contract of its own, its meaning is `Shortcuts.MessageGivenIffNonBlank` |
| Shortcuts.Shove | src/shortcuts.ts:242-301 | `shove`; no contract of its own, stated by `Shortcuts.BlankMessageRunsNothing` and `Cli.ShoveEnds` |
| Shortcuts.ShoveNoCommit | src/shortcuts.ts:306-361 | `shoveNoCommit`; no contract of its own, stated by `Cli.ShoveNoCommitEnds` |
| Shortcuts.CommitAndPush | src/shortcuts.ts:256-299 | the add, commit, push and bookkeeping steps shared by both; no contract of its own, stated by `Shortcuts.CommandsInOrder` and `Shortcuts.PushLogsOneEntry` |
| Shortcuts.PushLog | src/shortcuts.ts:281-293 | the entry logged after a push; no contract of its own, stated by `Shortcuts.PushLogsOneEntry` |
| Shortcuts.BlankMessageRunsNothing | src/shortcuts.ts:250-254 | an empty or blank message runs no git command, logs nothing and exits with 1 |
| Shortcuts.CommandsInOrder | src/shortcuts.ts:256-300 | the commands run are a prefix of add, commit, push; push runs only when confirmed, after add and commit went through; exit 0 exactly when in a repository and no step (the commands and, after a push, the bookkeeping) threw, and 1 otherwise |
| Shortcuts.PushLogsOneEntry | src/shortcuts.ts:275-293 | one entry is logged exactly after a push and bookkeeping that went through with an account detected; it is a successful `switch` by that account with the remote's repository path, over `ssh` exactly when the remote's auth type is `ssh`, otherwise `token` |
| Shortcuts.Owner | src/shortcuts.ts:133-138 | the owner is the non-empty part of the repository path before its first `/`; there is none exactly when there is no path or it starts with `/` |
| Shortcuts.OwnerOfPath | src/shortcuts.ts:135 | `owner/rest` gives `owner` |
| Shortcuts.LazyGit | src/shortcuts.ts:417-490 | `lazyGit`; no contract of its own, stated by `Shortcuts.LazyExitRule` and `Cli.LazyEnds` |
| Shortcuts.LazyExitRule | src/shortcuts.ts:477-489 | lazygit's exit is success exactly for code 0 or `null`; a failure's message names the code, which reads back; a spawn error is passed on as it is |
| Lazygit.BinaryInfoTable | src/lazygitManager.ts:15-64 | a platform is supported exactly for Windows, Linux or macOS; the filename is the reference name of OS, architecture and archive type, the URL is the release URL of the same version, and the extracted name is `lazygit.exe` on Windows and `lazygit` elsewhere; otherwise the error names the platform |
| Lazygit.GetBinaryInfo | src/lazygitManager.ts:15-64 | the release-archive table; no contract of its own, its meaning is `Lazygit.BinaryInfoTable` |
| Lazygit.UnknownArchFallsBack | src/lazygitManager.ts:26-53 | an architecture outside the table takes the x86_64 build on every supported OS |
| Lazygit.Aarch64OnLinuxOnly | src/lazygitManager.ts:40 | `aarch64` selects arm64 on Linux and x86_64 elsewhere |
| Lazygit.OneExtractorPerArchive | src/lazygitManager.ts:298-302 | every release archive is opened by exactly one extractor: zip on Windows, tar.gz elsewhere |
| Lazygit.ExtractorFor | src/lazygitManager.ts:298-302 | the extractor an archive's suffix selects; no contract of its own, stated by `Lazygit.OneExtractorPerArchive` |
| Lazygit.FailureOf | src/lazygitManager.ts:170-172 | the error a failed command raises; no contract of its own, stated by `Lazygit.FailureOfOutcome` |
| Lazygit.FailureOfOutcome | src/lazygitManager.ts:262-264 | a command's outcome fails exactly when it did not exit with 0; a throw keeps its message; a failed exit reports its standard error, or the fallback when that is empty, so the message is never empty |
| Lazygit.ExtractTarGz | src/lazygitManager.ts:158-179 | `tar -xzf`; no contract of its own, stated by `Lazygit.ExtractTarGzOutcome` and `Lazygit.InstallNeedsEveryStep` |
| Lazygit.ExtractTarGzOutcome | src/lazygitManager.ts:167-172 | `tar -xzf … -C dir name` succeeds exactly when that command exits with 0; a failed exit reports its standard error or `Extraction failed` |
| Lazygit.ZipOutcome | src/lazygitManager.ts:184-272 | the zip extraction as a function; no contract of its own, its meaning is `Lazygit.FirstZipMethodWins` and the contract of `Lazygit.ExtractZip` |
| Lazygit.ZipTries | src/lazygitManager.ts:193-245 | the attempt that ends the chain is the first to succeed, every one before it failed, and none succeeded when the chain runs out |
| Lazygit.FirstZipMethodWins | src/lazygitManager.ts:193-256 | on Windows the attempts run in order up to the first that exits with 0, a throw counting as failure; extraction succeeds exactly when one of the three does, and otherwise fails with the message listing the alternatives |
| Lazygit.ExtractZip | src/lazygitManager.ts:184-272 | the `extracted` flag skips every method after the first success; the commands run and the result are those of `ZipOutcome`, and apart from Windows it is `unzip`, whose failure reports standard error or `Unzip extraction failed` |
| Lazygit.TransportFor | src/lazygitManager.ts:93 | `https` for a URL starting with `https`, `http` otherwise; no contract of its own, every request of `Lazygit.DownloadFile` goes through it |
| Lazygit.DownloadFile | src/lazygitManager.ts:86-153 | the URLs requested start at the given URL, each redirecting to the next with a 301/302 and a non-empty `Location`; only a 200 saves; a request error keeps its message; any other status, including a 301/302 without `Location`, fails with `HTTP <code>` |
| Lazygit.DownloadLazygit | src/lazygitManager.ts:277-354 | the install on how the download settled; no contract of its own, its meaning is `Lazygit.InstallNeedsEveryStep` |
| Lazygit.Fetched | src/lazygitManager.ts:95-148 | how the download settled on its last reply: a 200 resolves, a request error rejects with its message, any other status with `HTTP <code>`; no contract of its own, stated by `Lazygit.InstallLazygit` together with `Lazygit.DownloadFile` |
| Lazygit.InstallLazygit | src/lazygitManager.ts:286-301 | the install with its download: outside the table it fails with the platform error and requests nothing; otherwise it requests the table's URL, follows its redirects, and goes on with the install exactly on how the last reply settled the download |
| Lazygit.InstallNeedsEveryStep | src/lazygitManager.ts:277-321 | the install ends at the binary in the bin directory exactly when the download, the extractor of its archive and the final existence check all went through |
| Lazygit.AsWrittenIgnoresPathOnUnsupportedPlatform | src/lazygitManager.ts:359-363 | on an unsupported OS with lazygit on `PATH`, `ensureLazygit` as written fails with the platform error |
| Lazygit.EnsureLazygitAsWritten | src/lazygitManager.ts:359-380 | `ensureLazygit` as written; no contract of its own, stated by `Lazygit.AsWrittenIgnoresPathOnUnsupportedPlatform` and `Lazygit.EnsureAgreesOnSupportedPlatforms` |
| Lazygit.EnsureLazygit | src/lazygitManager.ts:359-380 | the corrected lookup; no contract of its own, stated by `Lazygit.EnsurePrecedence` |
| Lazygit.WhichCommand | src/lazygitManager.ts:367-368 | `where lazygit` on Windows, `which lazygit` elsewhere; no contract of its own, stated by `Lazygit.EnsurePrecedence` |
| Lazygit.SystemLazygit | src/lazygitManager.ts:370-375 | the lazygit on `PATH`: the non-empty first line of the trimmed output of a command that exited with 0; no contract of its own, stated by `Lazygit.SystemLazygitIsFirstLine` and `Lazygit.EnsurePrecedence` |
| Lazygit.EnsurePrecedence | src/lazygitManager.ts:359-380 | the cached binary wins; then the first line of the trimmed `which`/`where` output when it succeeded and that line is not empty; the install only when neither applies |
| Lazygit.EnsureAgreesOnSupportedPlatforms | src/lazygitManager.ts:359-380 | on every supported platform the corrected lookup agrees with the code as written |
| Lazygit.SystemLazygitIsFirstLine | src/lazygitManager.ts:372-373 | the path taken from `PATH` is a non-empty first line of the trimmed output |
| Lazygit.VersionRun | src/lazygitManager.ts:391 | the longest run of characters of `[\d.]` that starts the text |
| Lazygit.FirstMatch | src/lazygitManager.ts:391 | the leftmost position where `version=` is followed by a version character; none exactly when there is no such position |
| Lazygit.GetLazygitVersion | src/lazygitManager.ts:385-400 | the result is `unknown` or a non-empty run of digits and dots |
| Lazygit.VersionReadBack | src/lazygitManager.ts:391-394 | output holding `version=<v>`, followed by a character that is no digit or dot, with no match starting before it, reads back as `v` |
| Lazygit.NoMatchIsUnknown | src/lazygitManager.ts:395-399 | without a match, or when the command threw, the version is `unknown` |

## Left out

- The shortcuts at `index.ts` lines 361-1683 are not modelled. Most run a fixed `git` command line after an argument or repository check. `setname` and `setmail` (lines 361-405) set the global git user name or email, and `showconfig` (lines 407-423) prints the git configuration list.
- The modules behind the imported names are not part of this model:
  - `src/universalDownload`, `src/download` and `src/flows`;
  - `config`, `git` and `activityLog`;
  - `utils/platform` and `utils/shell`.

  Their results are parameters: the detected account, the remote information, whether the current directory is a repository, `exec` results, the platform flags and whether files exist.
- Prompts, console output, colours and spinners are not modelled. `process.exit` is modelled as the value it is given: `Cli.Dispatch.ExitOnReturn` after an entry point returns, and `Cli.EndingOf` when it exits by itself or throws. The exit code the runtime picks for an uncaught error is not modelled; `Cli.Ending.Uncaught` carries the error instead.
- `showStatus` is modelled only in its owner extraction. Its other output is console text, and the `Promise.all` of its lookups is concurrency with no effect on the result.
- `quickSwitch` and `switchToAccount` pass the whole configuration on to `switchForCurrentRepo`. That call is not modelled.
- Network streaming, file streams, removing the archive and `chmod` are I/O and are not modelled. The download's progress percentage and sizes are floating-point display and are also left out.
- `Lazygit.DownloadFile`: follows at most `hops` redirects, then reports `StillRedirecting`. The source has no hop limit, so a redirect loop never ends there. The bound exists only so that the recursion provably terminates.
- `Lazygit.DownloadFile`: models the 60-second timeout and socket errors as a reply that failed with its message. Time is not modelled.
- `Lazygit.PathJoin`: joins with the platform separator and does not normalise the path the way `path.join` does.
- `Strings.Compare`: orders by code point, where the source's `localeCompare` uses the locale's collation.
- `Strings.ToLower`: lowers ASCII letters only, where `toLowerCase` covers all of Unicode.
- `Shortcuts.SortAccounts`: is an insertion sort. It is proved to leave the accounts ranked and a permutation of the input, but it states no stability. `Array.prototype.sort` has been required to be stable since ES2019, so accounts with the same name keep their input order there. The comparator is 0 only for accounts with the same name (`Shortcuts.RankTiesSameName`), so only the order among those is left unstated.
- `Shortcuts.SortInPlace`: the insertion sort that stands for `Array.prototype.sort` on the accounts. It has the same gap as `Shortcuts.SortAccounts`: it is proved sorted and a permutation, and its stability is not stated.
- `Cli.FetchExitCode`: assumes the download functions return normally. They are not part of this model, and a throw in them would end the process before index.ts calls `process.exit`.
- `Cli.SwitchEnds`: assumes the switch flow that `switchToAccount` runs after a match returns normally. That flow is not modelled.
- `Shortcuts.CommitAndPush`: assumes the push confirmation prompt does not throw. A throw in `logActivity` is modelled as logging nothing, although the source may already have written part of the log.
- `Shortcuts.LazyGit`: assumes that `isGitRepo` and the `exec(["which","lazygit"])` call (src/shortcuts.ts:421-429) do not throw, and neither do `loadConfig`, `detectActiveAccount` and `getCurrentGitUser`, which run between the `which` check and the spawn. None of these calls is inside a `try`, so a throw in any of them would also reject `lazyGit`.
- `DownloadArgs.FetchOptions`: a switch that is unset is `false`, where the source leaves it `undefined`. The header map is empty where the source leaves `headers` undefined. The map keeps no insertion order, and it gives the key `__proto__` no special meaning, unlike a JavaScript object.
- `Strings.ParseInt10`: returns an exact integer. JavaScript's `parseInt` returns a double, so it gives `-0` for `"-0"` and rounds numbers above 2^53.
- `ghe` with no arguments (the interactive main menu) and every unrecognised command are routed to `Menu` and `Other` only. What runs after that is not modelled, so they have no exit code.
- The `dl-release` options `asset` and `version`, and the `dl-dir` branch, are recorded but not interpreted further: the downloaders that read them are not part of this model.
- The Homebrew formula only carries packaging data and is not modelled.

## Findings

| source | as written | input that shows it | evidently intended | confidence | as-written member | corrected member |
|---|---|---|---|---|---|---|
| src/lazygitManager.ts:359-363 | `ensureLazygit` first calls `isLazygitCached`, which computes the cached path through `getLazygitBinaryInfo`. On an OS outside the table that call throws before `PATH` is looked at, so a lazygit installed on the system is never used. | platform `freebsd`/`x64` with `which lazygit` exiting 0 and printing `/usr/local/bin/lazygit` gives `Unsupported platform: freebsd x64` | look up the cache only where a cached path exists, then use `PATH`, then install | low, not executed | Lazygit.EnsureLazygitAsWritten | Lazygit.EnsureLazygit |
