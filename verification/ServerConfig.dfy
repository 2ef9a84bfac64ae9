/**
 * The server half of remote config (agents.go): the PUT merge and validation, the response it
 * serves, and the theorem both halves exist for: the agent accepts whatever the server serves.
 */
module ServerConfig {
  import opened Base
  import opened RemoteConfig
  import opened StringSets
  import ScanPaths
  import ServerPaths
  import ConfigManager

  /** The PUT body; None is an absent field, which means unchanged. */
  datatype PutRequest = PutRequest(interval: Option<int>, paths: Option<seq<string>>, maxReport: Option<int>,
                                   scanners: Option<seq<string>>, modelSizeMB: Option<int>)

  datatype Refusal = BadInterval | BadReportSize | BadModelSize | BadScanPaths(code: ScanPaths.Code) | ManyScanners
    | UnknownScanner

  datatype PutResult = Stored(config: Config) | Refused(why: Refusal)

  /** `UpdateAgentConfig`, from the decoded body and the stored row to the upserted row. */
  method UpdateAgentConfig(req: PutRequest, existing: Config) returns (r: PutResult)
    ensures r.Stored? <==> Acceptable(req, existing)
    ensures r.Stored? ==> Overlays(r.config, existing, req)
    ensures r.Refused? ==> Justified(req, existing, r.why)
    ensures r.Refused? ==> forall why | Justified(req, existing, why) :: Rank(r.why) <= Rank(why)
  {
    if req.interval.Some? && (req.interval.value < 60 || req.interval.value > 86400) { return Refused(BadInterval); }
    if req.maxReport.Some? && (req.maxReport.value < 1048576 || req.maxReport.value > 52428800) {
      return Refused(BadReportSize);
    }
    if req.modelSizeMB.Some? && (req.modelSizeMB.value < 1 || req.modelSizeMB.value > 100000) {
      return Refused(BadModelSize);
    }
    var code := ServerPaths.ValidateModelScanPaths(req.paths.GetOr([]));
    if code != ScanPaths.Ok { return Refused(BadScanPaths(code)); }
    var names := req.scanners.GetOr([]);
    if |names| > MAX_ENABLED_SCANNERS { return Refused(ManyScanners); }
    var known := AllKnown(names);
    if !known { return Refused(UnknownScanner); }
    var parent := AddsProfileParent(req, existing);
    if parent { return Refused(BadScanPaths(ScanPaths.PathProfileParent)); }
    var p := existing;
    if req.interval.Some? { p := p.(interval := req.interval.value); }
    if req.paths.Some? { p := p.(paths := req.paths.value); }
    if req.maxReport.Some? { p := p.(maxReport := req.maxReport.value); }
    if req.scanners.Some? { p := p.(scanners := req.scanners.value); }
    if req.modelSizeMB.Some? { p := p.(modelSizeMB := req.modelSizeMB.value); }
    return Stored(p);
  }

  method AllKnown(names: seq<string>) returns (ok: bool)
    ensures ok <==> forall n | n in names :: n in ALL_SCANNERS
  {
    for i := 0 to |names|
      invariant forall k | 0 <= k < i :: names[k] in ALL_SCANNERS
    {
      if names[i] !in ALL_SCANNERS { return false; }
    }
    return true;
  }

  /** The full path rules apply only when the set of paths changes. */
  method AddsProfileParent(req: PutRequest, existing: Config) returns (r: bool)
    requires ScanPaths.PathsCode(req.paths.GetOr([])) == ScanPaths.Ok
    ensures r <==> ChangesPaths(req, existing) && ServerPaths.AnyProfileParent(req.paths.value)
  {
    if req.paths.None? { return false; }
    var same := SameStringSet(req.paths.value, existing.paths);
    CanonicalIffSameSet(req.paths.value, existing.paths);
    if same { return false; }
    var code := ServerPaths.ValidateModelScanPathsFull(req.paths.value);
    return code != ScanPaths.Ok;
  }

  // ---------------------------------------------------------------- specification

  function Merge(c: Config, req: PutRequest): Config {
    Config(req.interval.GetOr(c.interval), req.scanners.GetOr(c.scanners), req.paths.GetOr(c.paths),
           req.modelSizeMB.GetOr(c.modelSizeMB), req.maxReport.GetOr(c.maxReport))
  }

  /** A present value is taken, an absent one kept. */
  predicate Overlaid<T(==)>(stored: T, sent: Option<T>, before: T) {
    (sent.Some? ==> sent == Some(stored)) && (sent.None? ==> stored == before)
  }

  predicate Overlays(c: Config, before: Config, req: PutRequest) {
    && Overlaid(c.interval, req.interval, before.interval) && Overlaid(c.paths, req.paths, before.paths)
    && Overlaid(c.maxReport, req.maxReport, before.maxReport)
    && Overlaid(c.scanners, req.scanners, before.scanners)
    && Overlaid(c.modelSizeMB, req.modelSizeMB, before.modelSizeMB)
  }

  lemma OverlaysIff(c: Config, before: Config, req: PutRequest)
    ensures Overlays(c, before, req) <==> c == Merge(before, req)
  {
  }

  ghost predicate ChangesPaths(req: PutRequest, existing: Config) {
    req.paths.Some? && Elements(req.paths.value) != Elements(existing.paths)
  }

  /** Every present field in bounds, every name known, and no whole-profile parent among changed paths. */
  ghost predicate Acceptable(req: PutRequest, existing: Config) {
    && (req.interval.Some? ==> 60 <= req.interval.value <= 86400)
    && (req.maxReport.Some? ==> 1048576 <= req.maxReport.value <= 52428800)
    && (req.modelSizeMB.Some? ==> 1 <= req.modelSizeMB.value <= 100000)
    && ScanPaths.PathsCode(req.paths.GetOr([])) == ScanPaths.Ok
    && |req.scanners.GetOr([])| <= 32
    && (forall n | n in req.scanners.GetOr([]) :: n in ALL_SCANNERS)
    && (ChangesPaths(req, existing) ==> !ServerPaths.AnyProfileParent(req.paths.value))
  }

  /** A refusal names a rule the request breaks. */
  ghost predicate Justified(req: PutRequest, existing: Config, why: Refusal) {
    match why
    case BadInterval => req.interval.Some? && !(60 <= req.interval.value <= 86400)
    case BadReportSize => req.maxReport.Some? && !(1048576 <= req.maxReport.value <= 52428800)
    case BadModelSize => req.modelSizeMB.Some? && !(1 <= req.modelSizeMB.value <= 100000)
    case BadScanPaths(code) =>
      || code == ScanPaths.PathsCode(req.paths.GetOr([])) != ScanPaths.Ok
      || (code == ScanPaths.PathProfileParent && ChangesPaths(req, existing)
          && ServerPaths.AnyProfileParent(req.paths.value))
    case ManyScanners => |req.scanners.GetOr([])| > 32
    case UnknownScanner => exists n | n in req.scanners.GetOr([]) :: n !in ALL_SCANNERS
  }

  /** The order in which the rules are looked at. */
  function Rank(why: Refusal): nat {
    match why
    case BadInterval => 0
    case BadReportSize => 1
    case BadModelSize => 2
    case BadScanPaths(code) => if code == ScanPaths.PathProfileParent then 6 else 3
    case ManyScanners => 4
    case UnknownScanner => 5
  }

  const DEFAULTS := Config(300, ALL_SCANNERS, [], 100, 5242880)

  /** The agent's own bounds, with only names it knows. */
  ghost predicate WithinBounds(c: Config) {
    Validate(c) == NoError && forall n | n in c.scanners :: n in ALL_SCANNERS
  }

  lemma PutKeepsBounds(req: PutRequest, existing: Config)
    requires WithinBounds(existing) && Acceptable(req, existing)
    ensures WithinBounds(Merge(existing, req))
  {
  }

  /** The stored row after any sequence of requests; a refused one leaves it alone. */
  ghost function StoredAfter(reqs: seq<PutRequest>): Config {
    if reqs == [] then DEFAULTS
    else
      var c, req := StoredAfter(reqs[..|reqs| - 1]), reqs[|reqs| - 1];
      if Acceptable(req, c) then Merge(c, req) else c
  }

  lemma {:induction false} StoredConfigsStayWithinBounds(reqs: seq<PutRequest>)
    ensures WithinBounds(StoredAfter(reqs))
  {
    if reqs != [] {
      var c, req := StoredAfter(reqs[..|reqs| - 1]), reqs[|reqs| - 1];
      StoredConfigsStayWithinBounds(reqs[..|reqs| - 1]);
      if Acceptable(req, c) { PutKeepsBounds(req, c); }
    }
  }

  /** The first row is the defaults; an acceptable request overlays the row and any other leaves it alone. */
  lemma StoredFollowsRequests(reqs: seq<PutRequest>, req: PutRequest)
    ensures StoredAfter([]) == Config(300, ALL_SCANNERS, [], 100, 5242880)
    ensures var before, after := StoredAfter(reqs), StoredAfter(reqs + [req]);
            if Acceptable(req, before) then Overlays(after, before, req) else after == before
  {
    assert (reqs + [req])[..|reqs|] == reqs;
  }

  // ---------------------------------------------------------------- the response

  function Digits(n: int): nat
    decreases if n < 0 then 1 - n else n
  {
    if n < 0 then 1 + Digits(-n) else if n < 10 then 1 else 1 + Digits(n / 10)
  }

  /** The escaped length of a string, as the JSON encoder writes it between quotes. */
  type EscapedLength = string -> nat

  /** A byte becomes at most six (a \u escape). */
  ghost predicate AtMostSixfold(esc: EscapedLength) {
    forall s :: esc(s) <= 6 * |s|
  }

  function StringBytes(s: string, esc: EscapedLength): nat { 2 + esc(s) }

  /** A JSON array of strings: brackets, quotes, and a comma after each element but the last. */
  function ListBytes(xs: seq<string>, esc: EscapedLength): nat {
    if xs == [] then 2
    else if |xs| == 1 then 2 + StringBytes(xs[0], esc)
    else StringBytes(xs[0], esc) + 1 + ListBytes(xs[1..], esc)
  }

  /** One `"key":value` with the brace or comma before it. */
  function FieldBytes(key: string, value: nat): nat { |key| + 4 + value }

  function WarningName(c: ScanPaths.Code): string {
    if c == ScanPaths.PathRoot then "path_root" else "path_profile_parent"
  }

  function WarningNames(paths: seq<string>): seq<string> {
    var ws := ServerPaths.Warnings(paths);
    seq(|ws|, i requires 0 <= i < |ws| => WarningName(ws[i]))
  }

  /** The length of the body `agentConfigToResp` is written as, with its closing brace and newline. */
  function ResponseBytes(c: Config, agentID: string, updatedAt: string, sha: Digest, esc: EscapedLength): nat {
    FieldBytes("agent_id", StringBytes(agentID, esc)) + FieldBytes("scan_interval_seconds", Digits(c.interval))
    + FieldBytes("model_scan_paths", ListBytes(c.paths, esc)) + FieldBytes("max_report_size_bytes", Digits(c.maxReport))
    + FieldBytes("enabled_scanners", ListBytes(c.scanners, esc)) + FieldBytes("updated_at", StringBytes(updatedAt, esc))
    + FieldBytes("model_file_size_mb", Digits(c.modelSizeMB))
      + FieldBytes("config_version", StringBytes(Version(c, sha), esc))
    + FieldBytes("path_warnings", ListBytes(WarningNames(c.paths), esc)) + 2
  }

  lemma {:induction false} ListBound(xs: seq<string>, esc: EscapedLength, m: nat)
    requires AtMostSixfold(esc) && forall x | x in xs :: |x| <= m
    ensures ListBytes(xs, esc) <= 2 + Times(|xs|, 6 * m + 3)
  {
    if xs != [] {
      assert xs[0] in xs && esc(xs[0]) <= 6 * |xs[0]|;
      ListBound(xs[1..], esc, m);
    }
  }

  function Times(n: nat, unit: nat): nat { if n == 0 then 0 else unit + Times(n - 1, unit) }

  lemma {:induction false} TimesIsProduct(n: nat, unit: nat)
    ensures Times(n, unit) == n * unit
  {
    if n > 0 { TimesIsProduct(n - 1, unit); }
  }

  lemma {:induction false} DigitsBound(n: nat, k: nat, limit: nat)
    requires k >= 1 && n < limit && limit <= Power10(k)
    ensures Digits(n) <= k
    decreases k
  {
    if n >= 10 {
      DigitsBound(n / 10, k - 1, Power10(k - 1));
    }
  }

  function Power10(k: nat): nat { if k == 0 then 1 else 10 * Power10(k - 1) }

  /** `Digits` is the decimal length. */
  lemma {:induction false} DigitsAre(n: nat)
    requires n > 0
    ensures Power10(Digits(n) - 1) <= n < Power10(Digits(n)) && Digits(-(n as int)) == Digits(n) + 1 && Digits(0) == 1
    decreases n
  {
    if n >= 10 { DigitsAre(n / 10); }
  }

  function Total(xs: seq<string>, esc: EscapedLength): nat {
    if xs == [] then 0 else esc(xs[0]) + Total(xs[1..], esc)
  }

  /** A list takes its strings, two quotes each, the commas between them and two brackets. */
  lemma {:induction false} ListBytesAre(xs: seq<string>, esc: EscapedLength)
    requires xs != []
    ensures ListBytes(xs, esc) == Total(xs, esc) + 2 * |xs| + (|xs| - 1) + 2 && ListBytes([], esc) == 2
  {
    if |xs| > 1 { ListBytesAre(xs[1..], esc); } else { assert xs[1..] == []; }
  }

  lemma EightDigits(n: nat)
    requires n < 100000000
    ensures Digits(n) <= 8
  {
    assert Power10(4) == 10000 by { assert Power10(2) == 100; }
    assert Power10(6) == 1000000 by { assert Power10(5) == 100000; }
    assert Power10(8) == 100000000 by { assert Power10(7) == 10000000; }
    DigitsBound(n, 8, 100000000);
  }

  lemma NumbersBound(c: Config)
    requires Validate(c) == NoError
    ensures Digits(c.interval) <= 8 && Digits(c.maxReport) <= 8 && Digits(c.modelSizeMB) <= 8
  {
    EightDigits(c.interval);
    EightDigits(c.maxReport);
    EightDigits(c.modelSizeMB);
  }

  lemma ScannerNamesAreShort()
    ensures forall n | n in ALL_SCANNERS :: |n| <= 16
  {
  }

  /** The UUID, the RFC 3339 time and the hex digest have fixed lengths. */
  ghost predicate FixedLengths(agentID: string, updatedAt: string, sha: Digest) {
    |agentID| == 36 && |updatedAt| <= 25 && forall x :: |sha(x)| == 64
  }

  /** Every response for a config within bounds fits the agent's 256 KiB cap, whatever its escaping. */
  lemma ResponseFits(c: Config, agentID: string, updatedAt: string, sha: Digest, esc: EscapedLength)
    requires WithinBounds(c) && AtMostSixfold(esc) && FixedLengths(agentID, updatedAt, sha)
    ensures ResponseBytes(c, agentID, updatedAt, sha, esc) <= MAX_RESPONSE_BYTES
  {
    assert ListBytes(c.paths, esc) <= 2 + 32 * 6147 by { PathsBound(c.paths, esc); }
    assert ListBytes(c.scanners, esc) <= 2 + 32 * 99 by { ScannersBound(c.scanners, esc); }
    WarningsBound(c.paths, esc);
    NumbersBound(c);
    VersionLength(c, sha);
    SmallResponse(c, agentID, updatedAt, sha, esc);
  }

  lemma SmallResponse(c: Config, agentID: string, updatedAt: string, sha: Digest, esc: EscapedLength)
    requires AtMostSixfold(esc) && |agentID| == 36 && |updatedAt| <= 25 && |Version(c, sha)| == 67
    requires ListBytes(c.paths, esc) <= 2 + 32 * 6147 && ListBytes(c.scanners, esc) <= 2 + 32 * 99
    requires ListBytes(WarningNames(c.paths), esc) <= 2 + 2 * 117
    requires Digits(c.interval) <= 8 && Digits(c.maxReport) <= 8 && Digits(c.modelSizeMB) <= 8
    ensures ResponseBytes(c, agentID, updatedAt, sha, esc) <= MAX_RESPONSE_BYTES
  {
    assert esc(agentID) <= 6 * 36 && esc(updatedAt) <= 6 * 25 && esc(Version(c, sha)) <= 6 * 67;
  }

  lemma VersionLength(c: Config, sha: Digest)
    requires forall x :: |sha(x)| == 64
    ensures |Version(c, sha)| == 67
  {
  }

  lemma WarningsBound(paths: seq<string>, esc: EscapedLength)
    requires AtMostSixfold(esc)
    ensures ListBytes(WarningNames(paths), esc) <= 2 + 2 * 117
  {
    var names := WarningNames(paths);
    ListBound(names, esc, 19);
    TimesIsProduct(|names|, 117);
  }

  lemma PathsBound(paths: seq<string>, esc: EscapedLength)
    requires ScanPaths.PathsCode(paths) == ScanPaths.Ok && AtMostSixfold(esc)
    ensures ListBytes(paths, esc) <= 2 + 32 * 6147
  {
    ScanPaths.AcceptedListMembers(paths);
    forall p | p in paths ensures |p| <= 1024 {
      var i :| 0 <= i < |paths| && paths[i] == p;
      assert ScanPaths.PathCode(paths[i]) == ScanPaths.Ok;
    }
    ListBound(paths, esc, 1024);
    TimesIsProduct(|paths|, 6147);
  }

  lemma ScannersBound(names: seq<string>, esc: EscapedLength)
    requires |names| <= MAX_ENABLED_SCANNERS && AtMostSixfold(esc)
    requires forall n | n in names :: n in ALL_SCANNERS
    ensures ListBytes(names, esc) <= 2 + 32 * 99
  {
    ScannerNamesAreShort();
    ListBound(names, esc, 16);
    TimesIsProduct(|names|, 99);
  }

  // ---------------------------------------------------------------- both halves together

  /** What the agent's fetch sees of the response to a GET of `c`. */
  function Fetched(c: Config, agentID: string, updatedAt: string, sha: Digest,
                   esc: EscapedLength): ConfigManager.FetchResult {
    ConfigManager.FetchResult(200, Decoded(WireOf(c, Version(c, sha))),
                              ResponseBytes(c, agentID, updatedAt, sha, esc) > MAX_RESPONSE_BYTES, false)
  }

  lemma BoundedConfigIsApplied(c: Config, a: ConfigManager.Agent, w: ConfigManager.World, e: ConfigManager.Event)
    requires WithinBounds(c)
    requires e.fetch == ConfigManager.FetchResult(200, Decoded(WireOf(c, Version(c, a.k.sha))), false, false)
    ensures ParseResponse(e.fetch.body, a.k.sha) == Accepted(Versioned(Version(c, a.k.sha), c))
    ensures var n := ConfigManager.Step(a, w, e);
            && ConfigManager.SnapshotOf(a, n.s) == ConfigManager.Snapshot(c.interval, c.scanners, c.paths,
                 c.modelSizeMB)
            && ConfigManager.StatusOf(n.s).(error := NoError) ==
               ConfigManager.Status(Version(c, a.k.sha), ConfigManager.Remote, NoError, c.maxReport)
  {
    VersionedIff(e.fetch.body, a.k.sha, Version(c, a.k.sha), c);
    KnownKeepsKnown(c.scanners);
    ConfigManager.StepByEffect(a, w, e);
  }

  /**
   * The server never serves a config the agent would reject: in any state of any agent, fetching
   * the row stored after any sequence of PUTs puts exactly that config and version in force.
   */
  lemma ServedConfigIsApplied(reqs: seq<PutRequest>, a: ConfigManager.Agent, w: ConfigManager.World,
                              e: ConfigManager.Event,
                              agentID: string, updatedAt: string, esc: EscapedLength)
    requires AtMostSixfold(esc) && FixedLengths(agentID, updatedAt, a.k.sha)
    requires e.fetch == Fetched(StoredAfter(reqs), agentID, updatedAt, a.k.sha, esc)
    ensures var c, n := StoredAfter(reqs), ConfigManager.Step(a, w, e);
            && ParseResponse(e.fetch.body, a.k.sha) == Accepted(Versioned(Version(c, a.k.sha), c))
            && ConfigManager.SnapshotOf(a, n.s) == ConfigManager.Snapshot(c.interval, c.scanners, c.paths,
                 c.modelSizeMB)
            && ConfigManager.StatusOf(n.s).(error := NoError) ==
               ConfigManager.Status(Version(c, a.k.sha), ConfigManager.Remote, NoError, c.maxReport)
  {
    StoredConfigsStayWithinBounds(reqs);
    ResponseFits(StoredAfter(reqs), agentID, updatedAt, a.k.sha, esc);
    BoundedConfigIsApplied(StoredAfter(reqs), a, w, e);
  }

  /** A change the server accepts reaches every agent: each present field, as it was sent. */
  lemma PutReachesAgent(reqs: seq<PutRequest>, req: PutRequest, a: ConfigManager.Agent, w: ConfigManager.World,
                        e: ConfigManager.Event, agentID: string, updatedAt: string, esc: EscapedLength)
    requires AtMostSixfold(esc) && FixedLengths(agentID, updatedAt, a.k.sha)
    requires Acceptable(req, StoredAfter(reqs))
    requires e.fetch == Fetched(StoredAfter(reqs + [req]), agentID, updatedAt, a.k.sha, esc)
    ensures var before, n := StoredAfter(reqs), ConfigManager.Step(a, w, e);
            var snap := ConfigManager.SnapshotOf(a, n.s);
            && Overlaid(snap.interval, req.interval, before.interval)
            && Overlaid(snap.scanners, req.scanners, before.scanners)
            && Overlaid(snap.paths, req.paths, before.paths)
            && Overlaid(snap.modelSizeMB, req.modelSizeMB, before.modelSizeMB)
            && Overlaid(ConfigManager.StatusOf(n.s).maxReport, req.maxReport, before.maxReport)
  {
    StoredFollowsRequests(reqs, req);
    ServedConfigIsApplied(reqs + [req], a, w, e, agentID, updatedAt, esc);
  }
}
