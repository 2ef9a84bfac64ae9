/**
 * The agent's view of a remote config (remoteconfig.go): the canonical version, the bounds,
 * and `ParseResponse`. SHA-256 over the canonical JSON is a function parameter; JSON decoding
 * is the `Body` datatype, so a missing or null field is None.
 */
module RemoteConfig {
  import opened Base
  import opened StringSets
  import ScanPaths

  datatype Config = Config(interval: int, scanners: seq<string>, paths: seq<string>, modelSizeMB: int, maxReport: int)

  /** The hashed form. */
  datatype CanonicalConfig =
    CanonicalConfig(scanners: seq<string>, maxReport: int, modelSizeMB: int, paths: seq<string>, interval: int)

  /** hex(sha256(canonical JSON)) */
  type Digest = CanonicalConfig -> string

  datatype Reason =
    | NoError | FetchFailed | ResponseTooLarge | MalformedJSON | WrongType | Incomplete | VersionMismatch
    | IntervalOutOfRange | ReportSizeOutOfRange | ModelSizeOutOfRange | TooManyScanners | BadPaths(code: ScanPaths.Code)
    | StateUntrusted | StateCorrupt | StateInvalid | StateStale | StateWriteFailed

  const MAX_RESPONSE_BYTES := 262144
  const MAX_ENABLED_SCANNERS := 32

  const ALL_SCANNERS: seq<string> :=
    ["ai_apps", "models", "mcp_servers", "cloud_clients", "network_activity", "browser",
     "ai_processes", "gpu", "python_envs", "nodejs_ai"]

  function Canonicalize(c: Config): CanonicalConfig {
    CanonicalConfig(CanonicalList(c.scanners), c.maxReport, c.modelSizeMB, CanonicalList(c.paths), c.interval)
  }

  function Version(c: Config, sha: Digest): (v: string)
    ensures v != ""
  {
    "c1:" + sha(Canonicalize(c))
  }

  predicate IntervalInRange(n: int) { 60 <= n <= 86400 }

  function Validate(c: Config): Reason {
    if !IntervalInRange(c.interval) then IntervalOutOfRange
    else if !(1048576 <= c.maxReport <= 52428800) then ReportSizeOutOfRange
    else if !(1 <= c.modelSizeMB <= 100000) then ModelSizeOutOfRange
    else if |c.scanners| > MAX_ENABLED_SCANNERS then TooManyScanners
    else if ScanPaths.PathsCode(c.paths) != ScanPaths.Ok then BadPaths(ScanPaths.PathsCode(c.paths))
    else NoError
  }

  datatype Wire = Wire(version: Option<string>, interval: Option<int>, scanners: Option<seq<string>>,
                       paths: Option<seq<string>>, modelSizeMB: Option<int>, maxReport: Option<int>)

  /** json.Unmarshal of a response body into `wire`. */
  datatype Body = NotJSON | TypeMismatch | Decoded(w: Wire)

  datatype Update =
    | Versioned(version: string, config: Config)
    | Legacy(interval: Option<int>, scanners: Option<seq<string>>, paths: Option<seq<string>>)

  datatype Parsed = Accepted(update: Update) | Rejected(reason: Reason)

  function ParseResponse(body: Body, sha: Digest): Parsed {
    match body
    case NotJSON => Rejected(MalformedJSON)
    case TypeMismatch => Rejected(WrongType)
    case Decoded(w) =>
      if w.version.None? || w.version.value == "" then ParseLegacy(w)
      else if w.interval.None? || w.scanners.None? || w.paths.None? || w.modelSizeMB.None? || w.maxReport.None? then
        Rejected(Incomplete)
      else
        var c := Config(w.interval.value, w.scanners.value, w.paths.value, w.modelSizeMB.value, w.maxReport.value);
        if Version(c, sha) != w.version.value then Rejected(VersionMismatch)
        else if Validate(c) != NoError then Rejected(Validate(c))
        else Accepted(Versioned(w.version.value, c))
  }

  function ParseLegacy(w: Wire): Parsed {
    if w.interval.None? || w.scanners.None? || w.paths.None? || w.maxReport.None? then Rejected(Incomplete)
    else if w.interval.value > 0 && !IntervalInRange(w.interval.value) then Rejected(IntervalOutOfRange)
    else if |w.scanners.value| > MAX_ENABLED_SCANNERS then Rejected(TooManyScanners)
    else if w.paths.value != [] && ScanPaths.PathsCode(w.paths.value) != ScanPaths.Ok then
      Rejected(BadPaths(ScanPaths.PathsCode(w.paths.value)))
    else
      Accepted(Legacy(if w.interval.value > 0 then Some(w.interval.value) else None,
                      if w.scanners.value != [] then Some(w.scanners.value) else None,
                      if w.paths.value != [] then Some(w.paths.value) else None))
  }

  /** A complete versioned body for `c`. */
  function WireOf(c: Config, version: string): Wire {
    Wire(Some(version), Some(c.interval), Some(c.scanners), Some(c.paths), Some(c.modelSizeMB), Some(c.maxReport))
  }

  /** A body replaces the config exactly when it is complete, carries its own hash and is in bounds. */
  lemma VersionedIff(body: Body, sha: Digest, v: string, c: Config)
    ensures ParseResponse(body, sha) == Accepted(Versioned(v, c)) <==>
            body == Decoded(WireOf(c, v)) && v == Version(c, sha) && Validate(c) == NoError
  {
    if body.Decoded? && body.w.version.Some? && body.w.version.value != "" {
      var w := body.w;
      if w.interval.Some? && w.scanners.Some? && w.paths.Some? && w.modelSizeMB.Some? && w.maxReport.Some? {
        var d := Config(w.interval.value, w.scanners.value, w.paths.value, w.modelSizeMB.value, w.maxReport.value);
        assert w == WireOf(d, w.version.value);
      }
    }
  }

  /** At most 32 paths, each a local folder in normal form. */
  ghost predicate PathsInBounds(paths: seq<string>) {
    |paths| <= 32 && forall i | 0 <= i < |paths| :: ScanPaths.LocalFolderShape(paths[i])
  }

  lemma PathsInBoundsIff(paths: seq<string>)
    ensures ScanPaths.PathsCode(paths) == ScanPaths.Ok <==> PathsInBounds(paths)
  {
    ScanPaths.AcceptedListMembers(paths);
    forall i | 0 <= i < |paths| ensures ScanPaths.PathCode(paths[i]) == ScanPaths.Ok
                                        <==> ScanPaths.LocalFolderShape(paths[i]) {
      ScanPaths.AcceptedIffLocalFolder(paths[i]);
    }
  }

  /** The bounds of a whole config, and which of them a reason names: the first one broken. */
  lemma ValidIff(c: Config)
    ensures var interval, report := 60 <= c.interval <= 86400, 1048576 <= c.maxReport <= 52428800;
            var size, names := 1 <= c.modelSizeMB <= 100000, |c.scanners| <= 32;
            && (Validate(c) == NoError <==> interval && report && size && names && PathsInBounds(c.paths))
            && (Validate(c) == IntervalOutOfRange <==> !interval)
            && (Validate(c) == ReportSizeOutOfRange <==> interval && !report)
            && (Validate(c) == ModelSizeOutOfRange <==> interval && report && !size)
            && (Validate(c) == TooManyScanners <==> interval && report && size && !names)
            && (Validate(c).BadPaths? <==> interval && report && size && names && !PathsInBounds(c.paths))
            && (Validate(c).BadPaths? ==> Validate(c).code == ScanPaths.PathsCode(c.paths))
  {
    PathsInBoundsIff(c.paths);
  }

  predicate Unversioned(w: Wire) { w.version == None || w.version == Some("") }

  /** The four fields an older server always sends. */
  predicate HasLegacyFields(w: Wire) { w.interval.Some? && w.scanners.Some? && w.paths.Some? && w.maxReport.Some? }

  /** A zero interval and an empty list mean "not set" in a body without a version. */
  ghost predicate LegacyInBounds(w: Wire)
    requires HasLegacyFields(w)
  {
    (w.interval.value <= 0 || 60 <= w.interval.value <= 86400) && |w.scanners.value| <= 32
    && PathsInBounds(w.paths.value)
  }

  /**
   * A body without a version merges exactly when its four fields are there and the set ones are in
   * bounds, and then sets exactly a positive interval and the non-empty lists, as they were sent.
   */
  lemma LegacyIff(body: Body, sha: Digest, i: Option<int>, s: Option<seq<string>>, p: Option<seq<string>>)
    ensures ParseResponse(body, sha) == Accepted(Legacy(i, s, p)) <==>
            && body.Decoded? && Unversioned(body.w) && HasLegacyFields(body.w) && LegacyInBounds(body.w)
            && (i.Some? <==> body.w.interval.value > 0) && (i.Some? ==> i == body.w.interval)
            && (s.Some? <==> body.w.scanners.value != []) && (s.Some? ==> s == body.w.scanners)
            && (p.Some? <==> body.w.paths.value != []) && (p.Some? ==> p == body.w.paths)
  {
    if body.Decoded? && HasLegacyFields(body.w) { PathsInBoundsIff(body.w.paths.value); }
  }

  /** Every field of a versioned body. */
  predicate HasAllFields(w: Wire) { HasLegacyFields(w) && w.modelSizeMB.Some? }

  function WholeConfig(w: Wire): Config
    requires HasAllFields(w)
  {
    Config(w.interval.value, w.scanners.value, w.paths.value, w.modelSizeMB.value, w.maxReport.value)
  }

  /** When each refusal is given: what is wrong first, in the order JSON, completeness, hash, bounds. */
  lemma RefusedIff(body: Body, sha: Digest)
    ensures var r := ParseResponse(body, sha);
            && (r == Rejected(MalformedJSON) <==> body.NotJSON?)
            && (r == Rejected(WrongType) <==> body.TypeMismatch?)
            && (r == Rejected(Incomplete) <==>
                  body.Decoded? && if Unversioned(body.w) then !HasLegacyFields(body.w) else !HasAllFields(body.w))
            && (r == Rejected(VersionMismatch) <==>
                  body.Decoded? && !Unversioned(body.w) && HasAllFields(body.w)
                    && body.w.version != Some(Version(WholeConfig(body.w), sha)))
    ensures body.Decoded? && !Unversioned(body.w) && HasAllFields(body.w)
            && body.w.version == Some(Version(WholeConfig(body.w), sha)) ==>
              forall why | why != NoError ::
                ParseResponse(body, sha) == Rejected(why) <==> Validate(WholeConfig(body.w)) == why
    ensures body.Decoded? && Unversioned(body.w) && HasLegacyFields(body.w) ==>
              var r, n, xs := ParseResponse(body, sha), body.w.interval.value, body.w.scanners.value;
              var interval := n <= 0 || 60 <= n <= 86400;
              && (r == Rejected(IntervalOutOfRange) <==> !interval)
              && (r == Rejected(TooManyScanners) <==> interval && |xs| > 32)
              && (r == Rejected(BadPaths(ScanPaths.PathsCode(body.w.paths.value))) <==>
                    interval && |xs| <= 32 && !PathsInBounds(body.w.paths.value))
  {
    if body.Decoded? && HasLegacyFields(body.w) {
      PathsInBoundsIff(body.w.paths.value);
      if HasAllFields(body.w) { ValidIff(WholeConfig(body.w)); }
    }
  }

  function Known(names: seq<string>): seq<string> {
    if names == [] then []
    else (if names[0] in ALL_SCANNERS then [names[0]] else []) + Known(names[1..])
  }

  /** `KnownScanners` keeps the names this build runs, in order, and says whether any was dropped. */
  method KnownScanners(names: seq<string>) returns (out: seq<string>, dropped: bool)
    ensures out == Known(names)
    ensures dropped <==> exists n | n in names :: n !in ALL_SCANNERS
  {
    out, dropped := [], false;
    for i := 0 to |names|
      invariant out + Known(names[i..]) == Known(names)
      invariant dropped <==> exists k | 0 <= k < i :: names[k] !in ALL_SCANNERS
    {
      assert names[i..][0] == names[i] && names[i..][1..] == names[i + 1..];
      if names[i] in ALL_SCANNERS {
        out := out + [names[i]];
      } else {
        dropped := true;
      }
    }
  }

  lemma {:induction false} KnownKeepsKnown(names: seq<string>)
    requires forall n | n in names :: n in ALL_SCANNERS
    ensures Known(names) == names
  {
    if names != [] {
      KnownKeepsKnown(names[1..]);
      assert names == [names[0]] + names[1..];
    }
  }
}
