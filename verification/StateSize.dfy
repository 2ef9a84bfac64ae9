/**
 * How long the state file is: a config the server can serve always fits the cap that `Load` puts
 * on it, so a saved one always comes back; a config from elsewhere need not fit.
 */
module StateSize {
  import opened Base
  import opened RemoteConfig
  import opened StateStore
  import opened ConfigManager
  import opened ConfigPersistence
  import opened ServerConfig
  import ScanPaths

  /** One line of the indented file: `"key": value`, with a comma and a newline. */
  function Line(indent: nat, key: string, value: nat): nat { indent + |key| + 4 + value + 2 }

  /** A list with each element on its own line, six spaces in, and the closing bracket four in. */
  function IndentedList(xs: seq<string>, esc: EscapedLength): nat {
    if xs == [] then 2 else ListBytes(xs, esc) + 7 * |xs| + 5
  }

  /** The length of a timestamp as JSON writes it, with its quotes. */
  type Stamp = int -> nat

  /** The length `MarshalIndent` gives a state file. */
  function FileBytes(st: StateFile, esc: EscapedLength, stamp: Stamp): nat {
    var c := st.config;
    2 + Line(2, "format", Digits(st.format)) + Line(2, "agent_id", StringBytes(st.agentID, esc))
    + Line(2, "collector_url_sha256", StringBytes(st.urlHash, esc))
      + Line(2, "config_version", StringBytes(st.version, esc))
    + Line(2, "fetched_at", stamp(st.fetchedAt)) + Line(2, "config", 0)
    + Line(4, "scan_interval_seconds", Digits(c.interval)) + Line(4, "enabled_scanners", IndentedList(c.scanners, esc))
    + Line(4, "model_scan_paths", IndentedList(c.paths, esc)) + Line(4, "model_file_size_mb", Digits(c.modelSizeMB))
    + Line(4, "max_report_size_bytes", Digits(c.maxReport)) + 4
  }

  ghost predicate Measured(k: Codec, esc: EscapedLength, stamp: Stamp) {
    forall st :: |k.encode(st)| == FileBytes(st, esc, stamp)
  }

  /** Nanoseconds since 1970, before the year 10000. */
  predicate Representable(t: int) { 0 <= t < 253402300800_000_000_000 }

  /** A UUID, a hex digest of the collector URL, and timestamps of four-digit years to the nanosecond. */
  ghost predicate FixedWidths(id: Identity, sha: Digest, stamp: Stamp) {
    && |id.agentID| <= 36 && |id.urlHash| == 64 && (forall x :: |sha(x)| == 64)
    && forall t | Representable(t) :: stamp(t) <= 37
  }

  /** The state file of a config within the server's bounds is within the cap. */
  lemma BoundedFileFits(id: Identity, c: Config, now: int, k: Codec, esc: EscapedLength, stamp: Stamp)
    requires WithinBounds(c) && AtMostSixfold(esc) && Measured(k, esc, stamp) && FixedWidths(id, k.sha, stamp)
    requires Representable(now)
    ensures |Encoded(id, c, Version(c, k.sha), now, k)| <= MAX_RESPONSE_BYTES
  {
    assert IndentedList(c.paths, esc) <= 196937 && IndentedList(c.scanners, esc) <= 3401 by { ListsBound(c, esc); }
    NumbersBound(c);
    VersionLength(c, k.sha);
    var st := StateFile(STATE_FORMAT, id.agentID, id.urlHash, Version(c, k.sha), now, c);
    assert |k.encode(st)| == FileBytes(st, esc, stamp);
  }

  lemma ListsBound(c: Config, esc: EscapedLength)
    requires WithinBounds(c) && AtMostSixfold(esc)
    ensures IndentedList(c.paths, esc) <= 196937 && IndentedList(c.scanners, esc) <= 3401
  {
    assert ListBytes(c.paths, esc) <= 2 + 32 * 6147 by { PathsBound(c.paths, esc); }
    assert ListBytes(c.scanners, esc) <= 2 + 32 * 99 by { ScannersBound(c.scanners, esc); }
    assert |c.paths| <= 32 && |c.scanners| <= 32 by { ScanPathsAreFew(c); }
  }

  lemma ScanPathsAreFew(c: Config)
    requires Validate(c) == NoError
    ensures |c.paths| <= 32 && |c.scanners| <= 32
  {
    ScanPaths.AcceptedListMembers(c.paths);
  }

  ghost predicate Served(a: Agent, e: Event) {
    Representable(e.now) && (EffectOf(a, e.fetch).Replace? ==> WithinBounds(EffectOf(a, e.fetch).config))
  }

  /** Every versioned response of the history is for a config within the server's bounds. */
  ghost predicate FromServer(a: Agent, events: seq<Event>) { forall i | 0 <= i < |events| :: Served(a, events[i]) }

  lemma {:induction false} LeftIsServed(a: Agent, disk: Disk, env: LoadEnv, events: seq<Event>)
    requires FromServer(a, events)
    ensures var left := LedgerOf(a, disk, env, events).left;
            left.Has? ==> WithinBounds(left.config) && Representable(left.now)
  {
    if events != [] {
      LeftIsServed(a, disk, env, events[..|events| - 1]);
      assert Served(a, events[|events| - 1]);
    }
  }

  /** Until it saves or deletes, the manager knows a version only from a file it has loaded. */
  lemma {:induction false} KnownUntouched(a: Agent, disk: Disk, env: LoadEnv, events: seq<Event>)
    ensures var l := LedgerOf(a, disk, env, events);
            l.left.Untouched? && l.known != "" ==> Visible(disk).Some? && |Visible(disk).value| <= MAX_RESPONSE_BYTES
  {
    if events != [] { KnownUntouched(a, disk, env, events[..|events| - 1]); }
  }

  /**
   * A life fed by the server: whatever version is saved, its file fits, so a restart brings it back
   * with the same version and cap and the same snapshot up to order and repeats.
   */
  lemma ServedConfigSurvivesRestart(a: Agent, disk: Disk, env: LoadEnv, events: seq<Event>, esc: EscapedLength,
                                    stamp: Stamp)
    requires RoundTrips(a.k) && AtMostSixfold(esc) && Measured(a.k, esc, stamp) && FixedWidths(a.id, a.k.sha, stamp)
    requires FromServer(a, events)
    requires var w := Run(a, disk, env, events);
             w.alive && w.s.haveRemote && w.s.versioned && w.s.persisted == w.s.version
    requires Distinguishes(a.k.sha, SavedConfig(a, Visible(disk), LedgerOf(a, disk, env, events).left),
                           LatestConfig(Effects(a, disk, env, events)))
    ensures var w := Run(a, disk, env, events);
            var r := Start(a, w.File(), HEALTHY);
            && SameUpToOrder(SnapshotOf(a, r), SnapshotOf(a, w.s))
            && StatusOf(r) == StatusOf(w.s).(source := Persisted, error := NoError)
  {
    var w := Run(a, disk, env, events);
    assert w.s.version != "" by { LatestConfigInForce(a, disk, env, events); }
    assert w.File().Some? && |w.File().value| <= MAX_RESPONSE_BYTES by {
      ServedFileFits(a, disk, env, events, esc, stamp);
    }
    RestartKeepsConfig(a, disk, env, events);
  }

  /** In such a life the file of any version believed saved is there and within the cap. */
  lemma ServedFileFits(a: Agent, disk: Disk, env: LoadEnv, events: seq<Event>, esc: EscapedLength, stamp: Stamp)
    requires RoundTrips(a.k) && AtMostSixfold(esc) && Measured(a.k, esc, stamp) && FixedWidths(a.id, a.k.sha, stamp)
    requires FromServer(a, events)
    requires var w := Run(a, disk, env, events); w.alive && w.s.persisted != ""
    ensures var w := Run(a, disk, env, events); w.File().Some? && |w.File().value| <= MAX_RESPONSE_BYTES
  {
    var w, l := Run(a, disk, env, events), LedgerOf(a, disk, env, events);
    assert Kept(a, Visible(disk), w, l) by { LedgerIsKept(a, disk, env, events); }
    assert w.File().Some? by { DiskAlwaysAgrees(a, disk, env, events); }
    match l.left {
      case Untouched => KnownUntouched(a, disk, env, events);
      case Gone =>
      case Has(c, v, now) =>
        assert WithinBounds(c) && Representable(now) by { LeftIsServed(a, disk, env, events); }
        assert v == Version(c, a.k.sha) by { LedgerIsVerified(a, disk, env, events); }
        BoundedFileFits(a.id, c, now, a.k, esc, stamp);
    }
  }

  // ---------------------------------------------------------------- a config that does not fit

  function Repeat(ch: char, n: nat): string { seq(n, i => ch) }

  /** Go's encoder writes `<` as a six-byte escape; a sender may write it as it is. */
  ghost predicate EscapesMarkup(esc: EscapedLength) { forall n: nat :: esc(Repeat('<', n)) == 6 * n }

  function Unescaped(): EscapedLength { (s: string) => |s| }

  function BigConfig(): Config { Config(300, [Repeat('<', 43700)], [], 100, 5242880) }

  /** Scanner names have no length bound: this config is valid and its response fits, and its state file does not. */
  lemma SavedMayNotFit(id: Identity, now: int, k: Codec, esc: EscapedLength, stamp: Stamp, agentID: string,
                       updatedAt: string)
    requires RoundTrips(k) && Measured(k, esc, stamp) && EscapesMarkup(esc) && FixedLengths(agentID, updatedAt, k.sha)
    ensures var c := BigConfig();
            var raw := Encoded(id, c, Version(c, k.sha), now, k);
            && Validate(c) == NoError && ResponseBytes(c, agentID, updatedAt, k.sha, Unescaped()) <= MAX_RESPONSE_BYTES
            && |raw| > MAX_RESPONSE_BYTES && Load(Some(raw), id, HEALTHY, k) == Ignored(StateCorrupt)
  {
    var c := BigConfig();
    LoadUndoesSave(id, c, now, k);
    BigResponseFits(agentID, updatedAt, k.sha);
  }

  lemma BigResponseFits(agentID: string, updatedAt: string, sha: Digest)
    requires FixedLengths(agentID, updatedAt, sha)
    ensures ResponseBytes(BigConfig(), agentID, updatedAt, sha, Unescaped()) <= MAX_RESPONSE_BYTES
  {
    var c := BigConfig();
    var esc := Unescaped();
    var name := Repeat('<', 43700);
    assert c.scanners == [name] && ListBytes([name], esc) == 4 + |name| && ListBytes(c.paths, esc) == 2;
    assert ListBytes(WarningNames(c.paths), esc) <= 236 by { WarningsBound(c.paths, esc); }
    EightDigits(300);
    EightDigits(100);
    EightDigits(5242880);
    VersionLength(c, sha);
  }
}
