/** The decisions in src/lazygitManager.ts: which release archive fits
    the platform, which extractor opens it, the Windows zip fallbacks,
    how `downloadFile` treats a status code, how the version is read
    from `lazygit --version`, and where `ensureLazygit` looks first.
    Processes, HTTP replies and the file system are inputs: `exec` maps
    a command line to what running it gave. */
module Lazygit {
  import opened Wrappers
  import opened Strings

  const Version := "0.44.1"
  const Repo := "jesseduffield/lazygit"
  const BaseUrl := "https://github.com/" + Repo + "/releases/download/v" + Version

  /** What `utils/platform` reports: the three OS flags, tested in this
      order, and the type and architecture names. */
  datatype Platform = Platform(isWindows: bool, isLinux: bool, isMacOS: bool, kind: string, arch: string)

  datatype BinaryInfo = BinaryInfo(filename: string, url: string, extractedName: string)

  /** What running one command gave: its exit code and output, or the
      error it threw. */
  datatype Exec = Exited(code: int, stdout: string, stderr: string) | Threw(message: string)

  predicate Succeeded(e: Exec) {
    e.Exited? && e.code == 0
  }

  // ---------------------------------------------------------------
  // `getLazygitBinaryInfo` (src/lazygitManager.ts, lines 15-64)

  function ReleaseFile(os: string, arch: string, ext: string): string {
    "lazygit_" + Version + "_" + os + "_" + arch + ext
  }

  function Info(filename: string, extractedName: string): BinaryInfo {
    BinaryInfo(filename, BaseUrl + "/" + filename, extractedName)
  }

  function GetBinaryInfo(p: Platform): Result<BinaryInfo> {
    var a := p.arch;
    if p.isWindows then
      if a == "x64" || a == "x86_64" then Ok(Info(ReleaseFile("Windows", "x86_64", ".zip"), "lazygit.exe"))
      else if a == "arm64" then Ok(Info(ReleaseFile("Windows", "arm64", ".zip"), "lazygit.exe"))
      else Ok(Info(ReleaseFile("Windows", "x86_64", ".zip"), "lazygit.exe"))
    else if p.isLinux then
      if a == "x64" || a == "x86_64" then Ok(Info(ReleaseFile("Linux", "x86_64", ".tar.gz"), "lazygit"))
      else if a == "arm64" || a == "aarch64" then Ok(Info(ReleaseFile("Linux", "arm64", ".tar.gz"), "lazygit"))
      else Ok(Info(ReleaseFile("Linux", "x86_64", ".tar.gz"), "lazygit"))
    else if p.isMacOS then
      if a == "arm64" then Ok(Info(ReleaseFile("Darwin", "arm64", ".tar.gz"), "lazygit"))
      else Ok(Info(ReleaseFile("Darwin", "x86_64", ".tar.gz"), "lazygit"))
    else Err("Unsupported platform: " + p.kind + " " + a)
  }

  predicate Supported(p: Platform) {
    p.isWindows || p.isLinux || p.isMacOS
  }

  /** Reference table of the release names: the OS label, the archive
      type, and arm64 only for `arm64`, or for `aarch64` on Linux. */
  function OsLabel(p: Platform): string {
    if p.isWindows then "Windows" else if p.isLinux then "Linux" else "Darwin"
  }

  function ArchLabel(p: Platform): string {
    if p.arch == "arm64" || (p.arch == "aarch64" && !p.isWindows && p.isLinux) then "arm64" else "x86_64"
  }

  function Extension(p: Platform): string {
    if p.isWindows then ".zip" else ".tar.gz"
  }

  /** The table agrees with the reference: every supported platform gets
      the archive named by its OS, architecture and archive type, under
      the release URL of the same version; any other OS is an error that
      names the platform. */
  lemma BinaryInfoTable(p: Platform)
    ensures GetBinaryInfo(p).Ok? <==> Supported(p)
    ensures GetBinaryInfo(p).Err? ==> GetBinaryInfo(p).message == "Unsupported platform: " + p.kind + " " + p.arch
    ensures GetBinaryInfo(p).Ok? ==>
      var info := GetBinaryInfo(p).value;
      info.filename == ReleaseFile(OsLabel(p), ArchLabel(p), Extension(p)) &&
      info.url == BaseUrl + "/" + info.filename &&
      info.extractedName == (if p.isWindows then "lazygit.exe" else "lazygit")
  {
  }

  /** An architecture outside the table takes the x86_64 build on every
      supported OS. */
  lemma UnknownArchFallsBack(p: Platform)
    requires Supported(p)
    requires p.arch !in {"x64", "x86_64", "arm64", "aarch64"}
    ensures GetBinaryInfo(p).value.filename == ReleaseFile(OsLabel(p), "x86_64", Extension(p))
  {
  }

  /** `aarch64` means arm64 on Linux only. */
  lemma Aarch64OnLinuxOnly(p: Platform)
    requires Supported(p) && p.arch == "aarch64"
    ensures GetBinaryInfo(p).value.filename == ReleaseFile(OsLabel(p), if !p.isWindows && p.isLinux then "arm64" else "x86_64", Extension(p))
  {
  }

  // ---------------------------------------------------------------
  // The extractor (src/lazygitManager.ts, lines 298-302)

  datatype Extractor = TarGz | Zip | NoExtractor

  function ExtractorFor(filename: string): Extractor {
    if EndsWith(filename, ".tar.gz") then TarGz
    else if EndsWith(filename, ".zip") then Zip
    else NoExtractor
  }

  lemma EndsWithOwnSuffix(s: string, ext: string)
    ensures EndsWith(s + ext, ext)
  {
    assert (s + ext)[|s + ext| - |ext|..] == ext;
  }

  /** Every release archive opens with exactly one extractor: zip on
      Windows, tar.gz elsewhere. */
  lemma OneExtractorPerArchive(p: Platform)
    requires Supported(p)
    ensures ExtractorFor(GetBinaryInfo(p).value.filename) == if p.isWindows then Zip else TarGz
  {
    var stem := "lazygit_" + Version + "_" + OsLabel(p) + "_" + ArchLabel(p);
    assert GetBinaryInfo(p).value.filename == stem + Extension(p);
    EndsWithOwnSuffix(stem, Extension(p));
    if p.isWindows {
      var f := stem + ".zip";
      assert f[|f| - 1] == 'p';
    }
  }

  // ---------------------------------------------------------------
  // `extractTarGz` and `extractZip` (src/lazygitManager.ts, lines 158-272)

  function TarGzCommand(archive: string, dest: string, name: string): seq<string> {
    ["tar", "-xzf", archive, "-C", dest, name]
  }

  /** A failed command's error: its standard error, or `fallback` when that is empty. */
  function FailureOf(e: Exec, fallback: string): Result<()> {
    match e
    case Threw(m) => Err(m)
    case Exited(code, _, stderr) => if code != 0 then Err(if stderr != "" then stderr else fallback) else Ok(())
  }

  function ExtractTarGz(exec: seq<string> -> Exec, archive: string, dest: string, name: string): Result<()> {
    FailureOf(exec(TarGzCommand(archive, dest, name)), "Extraction failed")
  }

  /** A command's outcome fails exactly when it did not exit with 0, and a
      command that exited says why: its standard error, or the non-empty
      fallback, so the message is never empty. */
  lemma FailureOfOutcome(e: Exec, fallback: string)
    requires fallback != ""
    ensures FailureOf(e, fallback).Ok? <==> Succeeded(e)
    ensures e.Threw? ==> FailureOf(e, fallback) == Err(e.message)
    ensures e.Exited? && !Succeeded(e) ==> FailureOf(e, fallback).message != ""
    ensures e.Exited? && !Succeeded(e) && e.stderr != "" ==> FailureOf(e, fallback).message == e.stderr
  {
  }

  /** `tar -xzf` succeeds exactly when the command exits with 0; a failed
      exit reports its standard error or "Extraction failed". */
  lemma ExtractTarGzOutcome(exec: seq<string> -> Exec, archive: string, dest: string, name: string)
    ensures var e := exec(TarGzCommand(archive, dest, name));
      (ExtractTarGz(exec, archive, dest, name).Ok? <==> Succeeded(e)) &&
      (e.Exited? && !Succeeded(e) ==>
         ExtractTarGz(exec, archive, dest, name) == Err(if e.stderr != "" then e.stderr else "Extraction failed"))
  {
    FailureOfOutcome(exec(TarGzCommand(archive, dest, name)), "Extraction failed");
  }

  /** The three ways Windows tries to open a zip, in order. */
  function ZipMethods(archive: string, dest: string): seq<seq<string>> {
    [["tar", "-xf", archive, "-C", dest],
     ["powershell", "-ExecutionPolicy", "Bypass", "-NoProfile", "-Command",
      "Expand-Archive -Path \"" + archive + "\" -DestinationPath \"" + dest + "\" -Force"],
     ["C:\\Windows\\System32\\tar.exe", "-xf", archive, "-C", dest]]
  }

  function UnzipCommand(archive: string, dest: string): seq<string> {
    ["unzip", "-o", archive, "-d", dest]
  }

  const AllMethodsFailed :=
    "All extraction methods failed.\n" +
    "Please install one of the following:\n" +
    "  - Git for Windows (includes tar): https://git-scm.com/download/win\n" +
    "  - 7-Zip: https://www.7-zip.org/\n" +
    "  - Or install lazygit manually: scoop install lazygit"

  /** The attempts of the fallback chain from attempt `k` on: each one
      runs until one succeeds. */
  function ZipTries(exec: seq<string> -> Exec, methods: seq<seq<string>>, k: nat): (r: nat)
    requires k <= |methods|
    ensures k <= r <= |methods|
    ensures r < |methods| ==> Succeeded(exec(methods[r]))
    ensures forall j :: k <= j < r ==> !Succeeded(exec(methods[j]))
    decreases |methods| - k
  {
    if k == |methods| then k
    else if Succeeded(exec(methods[k])) then k
    else ZipTries(exec, methods, k + 1)
  }

  /** What `extractZip` runs and how it ends. */
  function ZipOutcome(isWindows: bool, exec: seq<string> -> Exec, archive: string, dest: string): (seq<seq<string>>, Result<()>) {
    if isWindows then
      var methods := ZipMethods(archive, dest);
      var n := ZipTries(exec, methods, 0);
      if n < 3 then (methods[..n + 1], Ok(())) else (methods, Err(AllMethodsFailed))
    else
      var unzip := UnzipCommand(archive, dest);
      ([unzip], FailureOf(exec(unzip), "Unzip extraction failed"))
  }

  /** On Windows the first method that exits with 0 ends the chain, the
      ones before it having failed or thrown; only when all three fail is
      it an error. */
  lemma FirstZipMethodWins(exec: seq<string> -> Exec, archive: string, dest: string)
    ensures var (ran, r) := ZipOutcome(true, exec, archive, dest);
      var methods := ZipMethods(archive, dest);
      1 <= |ran| <= 3 && ran == methods[..|ran|] &&
      (forall j :: 0 <= j < |ran| - 1 ==> !Succeeded(exec(ran[j]))) &&
      (r.Ok? <==> exists j :: 0 <= j < 3 && Succeeded(exec(methods[j]))) &&
      (r.Ok? ==> Succeeded(exec(ran[|ran| - 1]))) &&
      (r.Err? ==> ran == methods && r.message == AllMethodsFailed)
  {
    var methods := ZipMethods(archive, dest);
    var n := ZipTries(exec, methods, 0);
    if n < 3 {
      assert methods[..n + 1][n] == methods[n];
    }
  }

  /** `extractZip`: the flag `extracted` is set by the first attempt that
      exits with 0, and every later attempt is skipped. */
  method ExtractZip(isWindows: bool, exec: seq<string> -> Exec, archive: string, dest: string)
    returns (ran: seq<seq<string>>, r: Result<()>)
    ensures (ran, r) == ZipOutcome(isWindows, exec, archive, dest)
  {
    if isWindows {
      var methods := ZipMethods(archive, dest);
      var extracted := false;
      ran := [methods[0]];
      if Succeeded(exec(methods[0])) {
        extracted := true;
      }
      if !extracted {
        ran := ran + [methods[1]];
        if Succeeded(exec(methods[1])) {
          extracted := true;
        }
      }
      if !extracted {
        ran := ran + [methods[2]];
        if Succeeded(exec(methods[2])) {
          extracted := true;
        }
      }
      assert ran == methods[..|ran|];
      if !extracted {
        assert ZipTries(exec, methods, 2) == 3;
        assert ZipTries(exec, methods, 0) == 3;
        assert ran == methods;
        return ran, Err(AllMethodsFailed);
      }
      r := Ok(());
    } else {
      var unzip := UnzipCommand(archive, dest);
      ran := [unzip];
      r := FailureOf(exec(unzip), "Unzip extraction failed");
    }
  }

  // ---------------------------------------------------------------
  // `downloadFile` (src/lazygitManager.ts, lines 86-153)

  /** What one GET gave: a response with its status and `Location`, or a
      request error or timeout with its message. */
  datatype Reply = Response(statusCode: nat, location: Option<string>) | RequestFailed(message: string)

  datatype Transport = Https | Http

  /** `url.startsWith("https") ? https : http` */
  function TransportFor(url: string): Transport {
    if StartsWith(url, "https") then Https else Http
  }

  function Get(get: (Transport, string) -> Reply, url: string): Reply {
    get(TransportFor(url), url)
  }

  /** A redirect that is followed: 301 or 302 with a non-empty `Location`. */
  predicate Redirects(r: Reply) {
    r.Response? && (r.statusCode == 301 || r.statusCode == 302) && Truthy(r.location)
  }

  /** Each URL but the last redirected to the next. */
  predicate Followed(get: (Transport, string) -> Reply, urls: seq<string>) {
    forall k :: 0 <= k < |urls| - 1 ==> Redirects(Get(get, urls[k])) && Get(get, urls[k]).location.value == urls[k + 1]
  }

  datatype Download = Saved(from: string) | DownloadFailed(message: string) | StillRedirecting

  /** GETs `url` and follows redirects, at most `hops` of them; the
      trail of URLs requested and how it ended. Only a 200 writes the
      file; any other status that is not a followed redirect is an error
      `HTTP <code>`. */
  method DownloadFile(get: (Transport, string) -> Reply, url: string, hops: nat)
    returns (urls: seq<string>, r: Download)
    ensures |urls| >= 1 && urls[0] == url && Followed(get, urls)
    ensures var last := Get(get, urls[|urls| - 1]);
      (r.Saved? <==> last.Response? && last.statusCode == 200) &&
      (r.Saved? ==> r.from == urls[|urls| - 1]) &&
      (r.StillRedirecting? <==> Redirects(last)) &&
      (r.StillRedirecting? ==> |urls| == hops + 1) &&
      (r.DownloadFailed? && last.RequestFailed? ==> r.message == last.message) &&
      (r.DownloadFailed? && last.Response? ==> r.message == "HTTP " + ToDecimal(last.statusCode))
    decreases hops
  {
    var reply := Get(get, url);
    if reply.Response? && (reply.statusCode == 301 || reply.statusCode == 302) {
      if Truthy(reply.location) {
        if hops == 0 {
          return [url], StillRedirecting;
        }
        var rest;
        rest, r := DownloadFile(get, reply.location.value, hops - 1);
        urls := [url] + rest;
        assert urls[1..] == rest;
        return;
      }
    }
    urls := [url];
    if reply.RequestFailed? {
      r := DownloadFailed(reply.message);
    } else if reply.statusCode != 200 {
      r := DownloadFailed("HTTP " + ToDecimal(reply.statusCode));
    } else {
      r := Saved(url);
    }
  }

  // ---------------------------------------------------------------
  // `downloadLazygit` (src/lazygitManager.ts, lines 277-354)

  /** `path.join(dir, name)` with the platform's separator. */
  function PathJoin(p: Platform, dir: string, name: string): string {
    dir + (if p.isWindows then "\\" else "/") + name
  }

  /** The install: `fetched` is how the download of the archive ended,
      `binaryThere` whether the binary exists after extraction. */
  function DownloadLazygit(p: Platform, binDir: string, tempDir: string, fetched: Result<()>,
                           exec: seq<string> -> Exec, binaryThere: bool): Result<string>
  {
    match GetBinaryInfo(p)
    case Err(e) => Err(e)
    case Ok(info) =>
      var archive := PathJoin(p, tempDir, info.filename);
      if fetched.Err? then Err(fetched.message)
      else
        var extracted := match ExtractorFor(info.filename)
          case TarGz => ExtractTarGz(exec, archive, binDir, info.extractedName)
          case Zip => ZipOutcome(p.isWindows, exec, archive, binDir).1
          case NoExtractor => Ok(());
        if extracted.Err? then Err(extracted.message)
        else if !binaryThere then Err("Binary not found after extraction")
        else Ok(PathJoin(p, binDir, info.extractedName))
  }

  /** An install ends at the binary's path in the bin directory, and only
      after the download, the extractor of its archive and the final check
      all went through. */
  lemma InstallNeedsEveryStep(p: Platform, binDir: string, tempDir: string, fetched: Result<()>,
                              exec: seq<string> -> Exec, binaryThere: bool)
    requires Supported(p)
    ensures var info := GetBinaryInfo(p).value;
      var archive := PathJoin(p, tempDir, info.filename);
      var extracted := if p.isWindows then ZipOutcome(true, exec, archive, binDir).1
                       else ExtractTarGz(exec, archive, binDir, "lazygit");
      DownloadLazygit(p, binDir, tempDir, fetched, exec, binaryThere).Ok? <==>
        fetched.Ok? && extracted.Ok? && binaryThere
    ensures DownloadLazygit(p, binDir, tempDir, fetched, exec, binaryThere).Ok? ==>
      DownloadLazygit(p, binDir, tempDir, fetched, exec, binaryThere).value ==
        PathJoin(p, binDir, if p.isWindows then "lazygit.exe" else "lazygit")
  {
    OneExtractorPerArchive(p);
  }

  /** How the archive's download settled, read off its last reply: a
      200 resolves, anything else that is not a followed redirect rejects. */
  function Fetched(last: Reply): Result<()> {
    if last.RequestFailed? then Err(last.message)
    else if last.statusCode == 200 then Ok(())
    else Err("HTTP " + ToDecimal(last.statusCode))
  }

  /** `downloadLazygit` with its download: the table's entry, the
      download of its URL (at most `hops` redirects), then the rest of the
      install on how that download settled; `None` while the download is
      still redirecting after `hops` redirects. `urls` is the trail of
      URLs requested. */
  method InstallLazygit(p: Platform, binDir: string, tempDir: string, get: (Transport, string) -> Reply,
                        hops: nat, exec: seq<string> -> Exec, binaryThere: bool)
    returns (urls: seq<string>, r: Option<Result<string>>)
    ensures GetBinaryInfo(p).Err? ==> urls == [] && r == Some(Err(GetBinaryInfo(p).message))
    ensures GetBinaryInfo(p).Ok? ==>
      |urls| >= 1 && urls[0] == GetBinaryInfo(p).value.url && Followed(get, urls) &&
      var last := Get(get, urls[|urls| - 1]);
      (r.None? <==> Redirects(last)) &&
      (r.Some? ==> r.value == DownloadLazygit(p, binDir, tempDir, Fetched(last), exec, binaryThere))
  {
    var info := GetBinaryInfo(p);
    if info.Err? {
      return [], Some(Err(info.message));
    }
    var d;
    urls, d := DownloadFile(get, info.value.url, hops);
    match d
    case StillRedirecting =>
      r := None;
    case Saved(_) =>
      r := Some(DownloadLazygit(p, binDir, tempDir, Ok(()), exec, binaryThere));
    case DownloadFailed(message) =>
      r := Some(DownloadLazygit(p, binDir, tempDir, Err(message), exec, binaryThere));
  }

  // ---------------------------------------------------------------
  // `ensureLazygit` (src/lazygitManager.ts, lines 359-380)

  function WhichCommand(p: Platform): seq<string> {
    [if p.isWindows then "where" else "which", "lazygit"]
  }

  /** The first line of the trimmed `which`/`where` output, when the
      command succeeded and that line is not empty. */
  function SystemLazygit(e: Exec): Option<string> {
    if Succeeded(e) && FirstLine(Trim(e.stdout)) != "" then Some(FirstLine(Trim(e.stdout))) else None
  }

  /** `ensureLazygit` as written: `isLazygitCached` computes the cached
      path first, so an unsupported platform throws before `PATH` is
      looked at. `cached` says which paths exist; `install` is how
      `downloadLazygit` ends, as `InstallLazygit` computes it. */
  function EnsureLazygitAsWritten(p: Platform, binDir: string, cached: string -> bool,
                                  exec: seq<string> -> Exec, install: Result<string>): Result<string>
  {
    match GetBinaryInfo(p)
    case Err(e) => Err(e)
    case Ok(info) =>
      var path := PathJoin(p, binDir, info.extractedName);
      if cached(path) then Ok(path)
      else
        var which := exec(WhichCommand(p));
        if which.Threw? then Err(which.message)
        else if SystemLazygit(which).Some? then Ok(SystemLazygit(which).value)
        else install
  }

  /** On a platform outside the table a lazygit on `PATH` is never used:
      the call fails with the platform error. */
  lemma AsWrittenIgnoresPathOnUnsupportedPlatform(binDir: string, cached: string -> bool, install: Result<string>)
    ensures var p := Platform(false, false, false, "freebsd", "x64");
      var exec := (cmd: seq<string>) => Exited(0, "/usr/local/bin/lazygit\n", "");
      EnsureLazygitAsWritten(p, binDir, cached, exec, install) == Err("Unsupported platform: freebsd x64")
  {
  }

  /** `ensureLazygit` with the cache looked up only where there is a
      cached path: cache, then `PATH`, then the install. */
  function EnsureLazygit(p: Platform, binDir: string, cached: string -> bool,
                         exec: seq<string> -> Exec, install: Result<string>): Result<string>
  {
    var cachedPath := if GetBinaryInfo(p).Ok? then Some(PathJoin(p, binDir, GetBinaryInfo(p).value.extractedName)) else None;
    if cachedPath.Some? && cached(cachedPath.value) then Ok(cachedPath.value)
    else
      var which := exec(WhichCommand(p));
      if which.Threw? then Err(which.message)
      else if SystemLazygit(which).Some? then Ok(SystemLazygit(which).value)
      else install
  }

  /** The cached binary wins; then a lazygit found on `PATH`, on every
      platform; the install runs only when neither is there. */
  lemma EnsurePrecedence(p: Platform, binDir: string, cached: string -> bool,
                         exec: seq<string> -> Exec, install: Result<string>)
    ensures var r := EnsureLazygit(p, binDir, cached, exec, install);
      var which := exec(WhichCommand(p));
      var path := PathJoin(p, binDir, if p.isWindows then "lazygit.exe" else "lazygit");
      (Supported(p) && cached(path) ==> r == Ok(path)) &&
      (!(Supported(p) && cached(path)) && SystemLazygit(which).Some? ==> r == Ok(SystemLazygit(which).value)) &&
      (!(Supported(p) && cached(path)) && !which.Threw? && SystemLazygit(which).None? ==> r == install)
  {
    BinaryInfoTable(p);
  }

  /** The two agree wherever the platform is supported. */
  lemma EnsureAgreesOnSupportedPlatforms(p: Platform, binDir: string, cached: string -> bool,
                                         exec: seq<string> -> Exec, install: Result<string>)
    requires Supported(p)
    ensures EnsureLazygit(p, binDir, cached, exec, install) == EnsureLazygitAsWritten(p, binDir, cached, exec, install)
  {
    BinaryInfoTable(p);
  }

  /** The path found is a line of the output with no surrounding blanks. */
  lemma SystemLazygitIsFirstLine(e: Exec)
    requires SystemLazygit(e).Some?
    ensures var s := SystemLazygit(e).value;
      s != "" && '\n' !in s && StartsWith(Trim(e.stdout), s)
  {
  }

  // ---------------------------------------------------------------
  // `getLazygitVersion` (src/lazygitManager.ts, lines 385-400)

  /** `[\d.]` */
  predicate IsVersionChar(c: char) {
    '0' <= c <= '9' || c == '.'
  }

  /** Where `/version=([\d.]+)/` can match: `version=` followed by at
      least one version character. */
  predicate MatchAt(s: string, i: nat) {
    i + 8 < |s| && s[i..i + 8] == "version=" && IsVersionChar(s[i + 8])
  }

  /** The longest run of version characters that starts `s`. */
  function VersionRun(s: string): (r: string)
    ensures |r| <= |s| && r == s[..|r|]
    ensures forall k :: 0 <= k < |r| ==> IsVersionChar(r[k])
    ensures |r| < |s| ==> !IsVersionChar(s[|r|])
  {
    if s != [] && IsVersionChar(s[0]) then
      var rest := VersionRun(s[1..]);
      assert s == [s[0]] + s[1..];
      [s[0]] + rest
    else []
  }

  /** The leftmost match from `i` on, as the regular expression finds it. */
  function FirstMatch(s: string, i: nat): (r: Option<nat>)
    requires i <= |s|
    ensures r.Some? ==> i <= r.value && MatchAt(s, r.value)
    ensures r.Some? ==> forall j :: i <= j < r.value ==> !MatchAt(s, j)
    ensures r.None? <==> forall j :: i <= j < |s| ==> !MatchAt(s, j)
    decreases |s| - i
  {
    if i == |s| then None
    else if MatchAt(s, i) then Some(i)
    else FirstMatch(s, i + 1)
  }

  /** `getLazygitVersion`: the captured run of the first match, or
      `unknown` when there is none or the command threw. */
  function GetLazygitVersion(run: Exec): (r: string)
    ensures r == "unknown" || (r != "" && forall k :: 0 <= k < |r| ==> IsVersionChar(r[k]))
  {
    match run
    case Threw(_) => "unknown"
    case Exited(_, out, _) =>
      match FirstMatch(out, 0)
      case None => "unknown"
      case Some(i) => VersionRun(out[i + 8..])
  }

  lemma {:induction false} VersionRunOf(v: string, rest: string)
    requires forall k :: 0 <= k < |v| ==> IsVersionChar(v[k])
    requires rest == [] || !IsVersionChar(rest[0])
    ensures VersionRun(v + rest) == v
  {
    if v != [] {
      assert (v + rest)[1..] == v[1..] + rest;
      VersionRunOf(v[1..], rest);
    }
  }

  /** Output holding `version=<v>`, where no match starts before it,
      reads back as `v`. */
  lemma VersionReadBack(code: int, pre: string, v: string, rest: string, stderr: string)
    requires v != [] && forall k :: 0 <= k < |v| ==> IsVersionChar(v[k])
    requires rest == [] || !IsVersionChar(rest[0])
    requires forall j :: 0 <= j < |pre| ==> !MatchAt(pre + "version=" + v + rest, j)
    ensures GetLazygitVersion(Exited(code, pre + "version=" + v + rest, stderr)) == v
  {
    var w := v + rest;
    var m := "version=" + w;
    var out := pre + m;
    assert pre + "version=" + v + rest == out;
    assert m[..8] == "version=" && m[8..] == w && m[8] == v[0];
    MatchAfter(pre, m);
    FirstMatchAt(out, 0, |pre|);
    VersionRunOf(v, rest);
  }

  /** A match at the start of `m` is one after `pre` in `pre + m`, with
      the same text after it. */
  lemma MatchAfter(pre: string, m: string)
    requires MatchAt(m, 0)
    ensures MatchAt(pre + m, |pre|) && (pre + m)[|pre| + 8..] == m[8..]
  {
    var out := pre + m;
    var p := |pre|;
    assert out[p..] == m;
    assert out[p..p + 8] == out[p..][..8];
    assert out[p + 8..] == out[p..][8..];
  }

  lemma {:induction false} FirstMatchAt(s: string, i: nat, p: nat)
    requires i <= p < |s| && MatchAt(s, p) && forall j :: i <= j < p ==> !MatchAt(s, j)
    ensures FirstMatch(s, i) == Some(p)
    decreases p - i
  {
    if i < p {
      FirstMatchAt(s, i + 1, p);
    }
  }

  /** Without a match, or when the command threw, the version is `unknown`. */
  lemma NoMatchIsUnknown(run: Exec)
    requires run.Threw? || forall j :: 0 <= j < |run.stdout| ==> !MatchAt(run.stdout, j)
    ensures GetLazygitVersion(run) == "unknown"
  {
  }
}
