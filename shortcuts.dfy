/** The decisions inside the account shortcuts of src/shortcuts.ts: the
    quick-switch ranking (the recent names, the comparator and the sort
    of the account list in place), the choice labels, the lookup by name
    for `ghe switch`, the commit-message check and the activity entry of
    `shove`/`shovenc`, the owner shown by `ghe status`, and the exit rule
    of `ghe lazy`. The configuration, the activity log, the git remote,
    the active-account detection and every process run are inputs. */
module Shortcuts {
  import opened Wrappers
  import opened Strings

  /** A configured account, with the fields the shortcuts read. */
  datatype Account = Account(name: string, gitUserName: Option<string>, gitEmail: Option<string>)

  // ---------------------------------------------------------------
  // Recent names (src/shortcuts.ts, lines 37-41)

  /** `[...new Set(xs)]`: every name once, in the order the set first
      saw it. */
  function Distinct(xs: seq<string>): (r: seq<string>)
    ensures forall x :: x in r <==> x in xs
    ensures forall i, j :: 0 <= i < j < |r| ==> r[i] != r[j]
  {
    if xs == [] then []
    else
      var d := Distinct(xs[..|xs| - 1]);
      var z := xs[|xs| - 1];
      assert xs == xs[..|xs| - 1] + [z];
      if z in d then d else d + [z]
  }

  /** `xs.indexOf(x)`: the first position of `x`, or -1 when there is none. */
  function IndexOfName(xs: seq<string>, x: string): (r: int)
    ensures -1 <= r < |xs|
    ensures r == -1 <==> x !in xs
    ensures r >= 0 ==> xs[r] == x && x !in xs[..r]
  {
    if xs == [] then -1
    else if xs[0] == x then 0
    else
      var k := IndexOfName(xs[1..], x);
      assert xs == [xs[0]] + xs[1..];
      if k == -1 then -1
      else
        assert xs[..k + 1] == [xs[0]] + xs[1..][..k];
        k + 1
  }

  /** Appending a name leaves the first position of every earlier name
      where it was. */
  lemma {:induction false} IndexOfSnoc(s: seq<string>, z: string, x: string)
    ensures IndexOfName(s + [z], x) == if x in s then IndexOfName(s, x) else if x == z then |s| else -1
  {
    if s != [] {
      IndexOfSnoc(s[1..], z, x);
      assert (s + [z])[1..] == s[1..] + [z];
    }
  }

  /** The recent list orders any two names as their first occurrences in
      the activity entries are ordered. */
  lemma {:induction false} DistinctKeepsFirstOccurrenceOrder(xs: seq<string>, x: string, y: string)
    requires x in xs && y in xs
    ensures IndexOfName(Distinct(xs), x) < IndexOfName(Distinct(xs), y) <==> IndexOfName(xs, x) < IndexOfName(xs, y)
  {
    var p := xs[..|xs| - 1];
    var z := xs[|xs| - 1];
    assert xs == p + [z];
    var d := Distinct(p);
    IndexOfSnoc(p, z, x);
    IndexOfSnoc(p, z, y);
    if x in p && y in p {
      DistinctKeepsFirstOccurrenceOrder(p, x, y);
    }
    if z !in d {
      assert Distinct(xs) == d + [z];
      IndexOfSnoc(d, z, x);
      IndexOfSnoc(d, z, y);
    }
  }

  // ---------------------------------------------------------------
  // Ranking (src/shortcuts.ts, lines 44-52)

  /** The comparator the account list is sorted with: negative when `a`
      goes first. */
  function RankCompare(recent: seq<string>, a: Account, b: Account): int {
    var ai := IndexOfName(recent, a.name);
    var bi := IndexOfName(recent, b.name);
    if ai != -1 && bi != -1 then ai - bi
    else if ai != -1 then -1
    else if bi != -1 then 1
    else Compare(a.name, b.name)
  }

  /** The three tiers: recent accounts before the others, recent ones in
      recent-list order, the others by name. */
  lemma RankTiers(recent: seq<string>, a: Account, b: Account)
    ensures a.name in recent && b.name !in recent ==> RankCompare(recent, a, b) < 0
    ensures a.name !in recent && b.name in recent ==> RankCompare(recent, a, b) > 0
    ensures a.name in recent && b.name in recent ==>
      (RankCompare(recent, a, b) < 0 <==> IndexOfName(recent, a.name) < IndexOfName(recent, b.name))
    ensures a.name !in recent && b.name !in recent ==> RankCompare(recent, a, b) == Compare(a.name, b.name)
  {
  }

  /** With the recent list built from the activity entries, two recent
      accounts are ranked by the first entry that names each. */
  lemma RecentRankedByFirstEntry(activity: seq<string>, a: Account, b: Account)
    requires a.name in activity && b.name in activity
    ensures RankCompare(Distinct(activity), a, b) < 0 <==> IndexOfName(activity, a.name) < IndexOfName(activity, b.name)
  {
    DistinctKeepsFirstOccurrenceOrder(activity, a.name, b.name);
  }

  /** Swapping the accounts flips the comparator's sign. */
  lemma RankFlip(recent: seq<string>, a: Account, b: Account)
    ensures RankCompare(recent, a, b) == -RankCompare(recent, b, a)
  {
    CompareFlip(a.name, b.name);
  }

  /** The comparator ties exactly the accounts of the same name. */
  lemma RankTiesSameName(recent: seq<string>, a: Account, b: Account)
    ensures RankCompare(recent, a, b) == 0 <==> a.name == b.name
  {
  }

  /** The comparator is consistent: "goes no later than" is transitive. */
  lemma RankTransitive(recent: seq<string>, a: Account, b: Account, c: Account)
    requires RankCompare(recent, a, b) <= 0 && RankCompare(recent, b, c) <= 0
    ensures RankCompare(recent, a, c) <= 0
  {
    if a.name !in recent && b.name !in recent && c.name !in recent {
      CompareTransitive(a.name, b.name, c.name);
    }
  }

  /** Every account goes no later than every account after it. */
  predicate Ranked(recent: seq<string>, s: seq<Account>) {
    forall i, j :: 0 <= i < j < |s| ==> RankCompare(recent, s[i], s[j]) <= 0
  }

  predicate AdjacentRanked(recent: seq<string>, s: seq<Account>) {
    forall k :: 0 < k < |s| ==> RankCompare(recent, s[k - 1], s[k]) <= 0
  }

  lemma {:induction false} AdjacentRankedIsRanked(recent: seq<string>, s: seq<Account>)
    requires AdjacentRanked(recent, s)
    ensures Ranked(recent, s)
  {
    if |s| > 1 {
      var n := |s| - 1;
      var t := s[..n];
      assert AdjacentRanked(recent, t);
      AdjacentRankedIsRanked(recent, t);
      forall i | 0 <= i < n - 1
        ensures RankCompare(recent, s[i], s[n]) <= 0
      {
        assert t[i] == s[i] && t[n - 1] == s[n - 1];
        RankTransitive(recent, s[i], s[n - 1], s[n]);
      }
    }
  }

  /** Exchanges two entries of an array. */
  method Swap<T>(a: array<T>, i: nat, j: nat)
    requires i < a.Length && j < a.Length
    modifies a
    ensures a[i] == old(a[j]) && a[j] == old(a[i])
    ensures forall k :: 0 <= k < a.Length && k != i && k != j ==> a[k] == old(a[k])
    ensures multiset(a[..]) == multiset(old(a[..]))
  {
    a[i], a[j] := a[j], a[i];
  }

  /** `Array.prototype.sort(cmp)`, written as an insertion sort: sorts `a`
      in place so that no element goes after its right neighbour. The
      comparator only has to answer consistently when its operands are
      swapped. */
  method SortInPlace<T(!new)>(a: array<T>, cmp: (T, T) -> int)
    requires forall x, y {:trigger cmp(x, y), cmp(y, x)} :: cmp(x, y) > 0 ==> cmp(y, x) <= 0
    modifies a
    ensures forall k :: 0 < k < a.Length ==> cmp(a[k - 1], a[k]) <= 0
    ensures multiset(a[..]) == multiset(old(a[..]))
  {
    var i := 0;
    while i < a.Length
      invariant 0 <= i <= a.Length
      invariant forall k :: 0 < k < i ==> cmp(a[k - 1], a[k]) <= 0
      invariant multiset(a[..]) == multiset(old(a[..]))
    {
      Insert(a, i, cmp);
      i := i + 1;
    }
  }

  /** One pass of the insertion sort: moves `a[i]` left past every larger
      neighbour, so that the ordered prefix `a[..i]` grows to `a[..i + 1]`. */
  method Insert<T(!new)>(a: array<T>, i: nat, cmp: (T, T) -> int)
    requires forall x, y {:trigger cmp(x, y), cmp(y, x)} :: cmp(x, y) > 0 ==> cmp(y, x) <= 0
    requires i < a.Length
    requires forall k :: 0 < k < i ==> cmp(a[k - 1], a[k]) <= 0
    modifies a
    ensures forall k :: 0 < k <= i ==> cmp(a[k - 1], a[k]) <= 0
    ensures multiset(a[..]) == multiset(old(a[..]))
  {
    var j := i;
    while j > 0 && cmp(a[j - 1], a[j]) > 0
      invariant 0 <= j <= i
      invariant forall k :: 0 < k <= i && k != j && k != j + 1 ==> cmp(a[k - 1], a[k]) <= 0
      invariant 0 < j < i ==> cmp(a[j - 1], a[j + 1]) <= 0
      invariant j < i ==> cmp(a[j], a[j + 1]) <= 0
      invariant multiset(a[..]) == multiset(old(a[..]))
    {
      Swap(a, j - 1, j);
      j := j - 1;
    }
  }

  /** `cfg.accounts.sort(...)` in `quickSwitch`: the accounts array is
      ranked in place, and `sortedAccounts` is that same array. */
  method SortAccounts(a: array<Account>, recent: seq<string>)
    modifies a
    ensures Ranked(recent, a[..])
    ensures multiset(a[..]) == multiset(old(a[..]))
  {
    forall x: Account, y: Account
      ensures RankCompare(recent, x, y) > 0 ==> RankCompare(recent, y, x) <= 0
    {
      RankFlip(recent, x, y);
    }
    SortInPlace(a, (x: Account, y: Account) => RankCompare(recent, x, y));
    assert AdjacentRanked(recent, a[..]);
    AdjacentRankedIsRanked(recent, a[..]);
  }

  /** After the sort no account outside the recent list comes before a
      recent one. */
  lemma RecentAccountsFirst(recent: seq<string>, s: seq<Account>, i: nat, j: nat)
    requires Ranked(recent, s) && i < j < |s|
    requires s[j].name in recent
    ensures s[i].name in recent
  {
    RankTiers(recent, s[i], s[j]);
  }

  // ---------------------------------------------------------------
  // Choice labels (src/shortcuts.ts, lines 60-65)

  datatype Choice = Choice(title: string, value: string, description: string)

  const CurrentMark := " (current)"
  const RecentMark := " \U{2B50}"

  /** `acc.field || ""` */
  function OrEmpty(o: Option<string>): string {
    if o.Some? then o.value else ""
  }

  /** The title of one account's entry: its name, marked when it is the
      detected account and when it is recent. */
  function Title(name: string, current: Option<string>, recent: seq<string>): string {
    name + (if current == Some(name) then CurrentMark else "") + (if name in recent then RecentMark else "")
  }

  /** The menu, one entry per account in the array's order. */
  function Choices(accounts: seq<Account>, current: Option<string>, recent: seq<string>): (r: seq<Choice>)
    ensures |r| == |accounts|
    ensures forall i :: 0 <= i < |r| ==>
      r[i].value == accounts[i].name && r[i].title == Title(accounts[i].name, current, recent) &&
      r[i].description == Trim(OrEmpty(accounts[i].gitUserName) + " " + OrEmpty(accounts[i].gitEmail))
  {
    seq(|accounts|, i requires 0 <= i < |accounts| =>
      var acc := accounts[i];
      Choice(Title(acc.name, current, recent), acc.name,
             Trim(OrEmpty(acc.gitUserName) + " " + OrEmpty(acc.gitEmail))))
  }

  /** A title reads back as the name followed by its marks: the current
      mark exactly for the detected account, the star exactly for a
      recent one. */
  lemma TitleMarks(name: string, current: Option<string>, recent: seq<string>)
    ensures StartsWith(Title(name, current, recent), name)
    ensures var marks := Title(name, current, recent)[|name|..];
      (StartsWith(marks, CurrentMark) <==> current == Some(name)) &&
      (EndsWith(marks, RecentMark) <==> name in recent)
  {
    var t := Title(name, current, recent);
    var marks := (if current == Some(name) then CurrentMark else "") + (if name in recent then RecentMark else "");
    assert t == name + marks;
    assert t[..|name|] == name && t[|name|..] == marks;
    assert CurrentMark[9] == ')';
  }

  // ---------------------------------------------------------------
  // `ghe switch <name>` (src/shortcuts.ts, lines 86-103)

  predicate SameIgnoringCase(a: string, b: string) {
    ToLower(a) == ToLower(b)
  }

  /** `accounts.find(...)` by case-insensitive name: the position of the
      first match. */
  function FindIgnoringCase(accounts: seq<Account>, name: string): (r: Option<nat>)
    ensures r.Some? ==> r.value < |accounts| && SameIgnoringCase(accounts[r.value].name, name)
    ensures r.Some? ==> forall j :: 0 <= j < r.value ==> !SameIgnoringCase(accounts[j].name, name)
    ensures r.None? <==> forall j :: 0 <= j < |accounts| ==> !SameIgnoringCase(accounts[j].name, name)
  {
    if accounts == [] then None
    else if SameIgnoringCase(accounts[0].name, name) then Some(0)
    else
      match FindIgnoringCase(accounts[1..], name)
      case None => None
      case Some(k) => Some(k + 1)
  }

  /** Lower-casing twice is lower-casing once. */
  lemma ToLowerIdempotent(s: string)
    ensures ToLower(ToLower(s)) == ToLower(s)
  {
  }

  /** The lookup does not depend on the case the name is typed in. */
  lemma {:induction false} FindIgnoresTypedCase(accounts: seq<Account>, name: string)
    ensures FindIgnoringCase(accounts, ToLower(name)) == FindIgnoringCase(accounts, name)
  {
    ToLowerIdempotent(name);
    if accounts != [] {
      FindIgnoresTypedCase(accounts[1..], name);
    }
  }

  datatype SwitchOutcome =
    | NotInRepo
    | AccountNotFound(message: string, available: seq<string>)
    | SwitchFound(account: Account)
  {
    /** `None` when the switch flow runs on, else the exit code. */
    function Exit(): Option<int> {
      if SwitchFound? then None else Some(1)
    }
  }

  function Names(accounts: seq<Account>): (r: seq<string>)
    ensures |r| == |accounts| && forall i :: 0 <= i < |r| ==> r[i] == accounts[i].name
  {
    seq(|accounts|, i requires 0 <= i < |accounts| => accounts[i].name)
  }

  /** `switchToAccount`: outside a repository, exit 1; otherwise the first
      case-insensitive match, or the error and the list of names, exit 1. */
  function SwitchToAccount(inRepo: bool, accounts: seq<Account>, name: string): (r: SwitchOutcome)
    ensures r.Exit() == Some(1) <==> !inRepo || FindIgnoringCase(accounts, name).None?
    ensures r.SwitchFound? ==> r.account == accounts[FindIgnoringCase(accounts, name).value]
    ensures r.AccountNotFound? ==> r.message == "Account '" + name + "' not found" && r.available == Names(accounts)
  {
    if !inRepo then NotInRepo
    else
      match FindIgnoringCase(accounts, name)
      case None => AccountNotFound("Account '" + name + "' not found", Names(accounts))
      case Some(k) => SwitchFound(accounts[k])
  }

  // ---------------------------------------------------------------
  // `shove` and `shovenc` (src/shortcuts.ts, lines 242-361)

  /** What `getCurrentRemoteInfo` reports, as far as the log entry reads it. */
  datatype RemoteInfo = RemoteInfo(repoPath: Option<string>, authType: Option<string>)

  /** The entry `logActivity` records; `authMethod` is its `method` field. */
  datatype ActivityEntry = ActivityEntry(
    action: string, accountName: string, repoPath: Option<string>, authMethod: string, success: bool)

  /** The git commands run, the entries logged, and the exit code. */
  datatype ShoveRun = ShoveRun(commands: seq<seq<string>>, logged: seq<ActivityEntry>, exitCode: int)

  const AddAll: seq<string> := ["git", "add", "."]
  const PushOrigin: seq<string> := ["git", "push", "origin"]

  /** `!message || message.trim() === ""` rejects the message. */
  predicate MessageGiven(message: string) {
    message != "" && Trim(message) != ""
  }

  function RepoPathOf(remote: Option<RemoteInfo>): Option<string> {
    if remote.Some? then remote.value.repoPath else None
  }

  /** `remoteInfo?.authType === "ssh" ? "ssh" : "token"` */
  function MethodOf(remote: Option<RemoteInfo>): string {
    if remote.Some? && remote.value.authType == Some("ssh") then "ssh" else "token"
  }

  /** The entries a successful push logs: one, when an account was detected. */
  function PushLog(active: Option<string>, remote: Option<RemoteInfo>): seq<ActivityEntry> {
    if Truthy(active) then [ActivityEntry("switch", active.value, RepoPathOf(remote), MethodOf(remote), true)]
    else []
  }

  /** Add, commit with `commit`, and push when confirmed, in that order,
      and after a push the bookkeeping (`loadConfig`, `detectActiveAccount`,
      `getCurrentRemoteInfo` and `logActivity`). `throwsAt` is the index of
      the first of these steps that throws, if any does: 0 add, 1 commit,
      2 push, 3 the bookkeeping. A throw ends the run with exit code 1 and
      logs nothing. */
  function CommitAndPush(inRepo: bool, commit: seq<string>, throwsAt: Option<nat>, shouldPush: bool,
                         active: Option<string>, remote: Option<RemoteInfo>): ShoveRun
  {
    if !inRepo then ShoveRun([], [], 1)
    else
      var cmds := [AddAll, commit] + (if shouldPush then [PushOrigin] else []);
      if throwsAt.Some? && throwsAt.value < |cmds| then ShoveRun(cmds[..throwsAt.value + 1], [], 1)
      else if shouldPush && throwsAt == Some(3) then ShoveRun(cmds, [], 1)
      else ShoveRun(cmds, if shouldPush then PushLog(active, remote) else [], 0)
  }

  /** `shove(message)` */
  function Shove(inRepo: bool, message: string, throwsAt: Option<nat>, shouldPush: bool,
                 active: Option<string>, remote: Option<RemoteInfo>): ShoveRun
  {
    if inRepo && !MessageGiven(message) then ShoveRun([], [], 1)
    else CommitAndPush(inRepo, ["git", "commit", "-m", message], throwsAt, shouldPush, active, remote)
  }

  /** `shoveNoCommit()` */
  function ShoveNoCommit(inRepo: bool, throwsAt: Option<nat>, shouldPush: bool,
                         active: Option<string>, remote: Option<RemoteInfo>): ShoveRun
  {
    CommitAndPush(inRepo, ["git", "commit", "--allow-empty-message", "-m", ""], throwsAt, shouldPush, active, remote)
  }

  /** A message is refused exactly when it holds nothing but whitespace. */
  lemma MessageGivenIffNonBlank(message: string)
    ensures MessageGiven(message) <==> exists i :: 0 <= i < |message| && !IsWhitespace(message[i])
  {
  }

  /** A refused message ends `shove` with exit code 1 before any git command. */
  lemma BlankMessageRunsNothing(inRepo: bool, message: string, throwsAt: Option<nat>, shouldPush: bool,
                                active: Option<string>, remote: Option<RemoteInfo>)
    requires !MessageGiven(message)
    ensures Shove(inRepo, message, throwsAt, shouldPush, active, remote) == ShoveRun([], [], 1)
  {
  }

  /** The commands run are a prefix of add, commit, push; push runs only
      when confirmed and after add and commit went through. */
  lemma CommandsInOrder(inRepo: bool, commit: seq<string>, throwsAt: Option<nat>, shouldPush: bool,
                        active: Option<string>, remote: Option<RemoteInfo>)
    ensures var r := CommitAndPush(inRepo, commit, throwsAt, shouldPush, active, remote);
      r.commands <= [AddAll, commit, PushOrigin] &&
      (|r.commands| == 3 <==> inRepo && shouldPush && !(throwsAt.Some? && throwsAt.value < 2)) &&
      (r.exitCode == 0 <==> inRepo && !(throwsAt.Some? && throwsAt.value < (if shouldPush then 4 else 2))) &&
      (r.exitCode != 0 ==> r.exitCode == 1)
  {
  }

  /** Exactly one entry is logged after a push and its bookkeeping that
      went through with an account detected, and none otherwise; it records a successful
      `switch` by that account, over ssh exactly when the remote is an
      ssh remote. */
  lemma PushLogsOneEntry(inRepo: bool, commit: seq<string>, throwsAt: Option<nat>, shouldPush: bool,
                         active: Option<string>, remote: Option<RemoteInfo>)
    ensures var r := CommitAndPush(inRepo, commit, throwsAt, shouldPush, active, remote);
      var pushed := inRepo && shouldPush && !(throwsAt.Some? && throwsAt.value < 4);
      (r.logged != [] <==> pushed && Truthy(active)) &&
      |r.logged| <= 1 &&
      (r.logged != [] ==>
        r.logged[0].action == "switch" && r.logged[0].success &&
        r.logged[0].accountName == active.value && r.logged[0].repoPath == RepoPathOf(remote) &&
        (r.logged[0].authMethod == "ssh" <==> remote.Some? && remote.value.authType == Some("ssh")) &&
        (r.logged[0].authMethod != "ssh" ==> r.logged[0].authMethod == "token"))
  {
  }

  // ---------------------------------------------------------------
  // `ghe status` owner (src/shortcuts.ts, lines 133-138)

  /** The owner shown: the text before the first `/` of the repository
      path, when the path and that text are both non-empty. */
  function Owner(repoPath: Option<string>): (r: Option<string>)
    ensures r.Some? ==> Truthy(repoPath) && r.value != "" && '/' !in r.value && StartsWith(repoPath.value, r.value)
    ensures r.Some? ==> |r.value| == |repoPath.value| || repoPath.value[|r.value|] == '/'
    ensures r.None? <==> !Truthy(repoPath) || repoPath.value[0] == '/'
  {
    if !Truthy(repoPath) then None
    else
      var (owner, _) := SplitFirst(repoPath.value, '/');
      if owner == "" then None else Some(owner)
  }

  /** `owner/rest` shows `owner`, whatever slashes `rest` holds. */
  lemma OwnerOfPath(owner: string, rest: string)
    requires owner != "" && '/' !in owner
    ensures Owner(Some(owner + "/" + rest)) == Some(owner)
  {
    SplitFirstJoined(owner, '/', rest);
  }

  // ---------------------------------------------------------------
  // `ghe lazy` (src/shortcuts.ts, lines 417-490)

  datatype LazyOutcome =
    | LazyNotInRepo
    | LazyNotInstalled
    | LazyDone
    | LazyFailed(message: string)

  /** The first event of the spawned lazygit process the wait settles on:
      `exit` with its code (`None` for `null`, a process ended by a
      signal), or `error` when the process could not be spawned. */
  datatype ChildEnd = ChildExited(code: Option<nat>) | SpawnFailed(message: string)

  /** `whichCode` is the exit code of `which lazygit`. */
  function LazyGit(inRepo: bool, whichCode: int, ended: ChildEnd): LazyOutcome {
    if !inRepo then LazyNotInRepo
    else if whichCode != 0 then LazyNotInstalled
    else match ended
      case SpawnFailed(message) => LazyFailed(message)
      case ChildExited(code) =>
        if code == Some(0) || code == None then LazyDone
        else LazyFailed("lazygit exited with code " + ToDecimal(code.value))
  }

  /** Only an exit with 0 or `null` is success; any other code names itself
      in the error, and a spawn error is passed on as it is. */
  lemma LazyExitRule(inRepo: bool, whichCode: int, ended: ChildEnd)
    requires inRepo && whichCode == 0
    ensures LazyGit(inRepo, whichCode, ended).LazyDone? <==> ended == ChildExited(None) || ended == ChildExited(Some(0))
    ensures ended.SpawnFailed? ==> LazyGit(inRepo, whichCode, ended) == LazyFailed(ended.message)
    ensures LazyGit(inRepo, whichCode, ended).LazyFailed? && ended.ChildExited? ==>
      ended.code.Some? &&
      ParseInt10(LazyGit(inRepo, whichCode, ended).message[|"lazygit exited with code "|..]) == Num(ended.code.value)
  {
    if ended.ChildExited? && ended.code.Some? {
      ParseInt10Decimal(ended.code.value, "");
      assert ToDecimal(ended.code.value) + "" == ToDecimal(ended.code.value);
    }
  }
}
