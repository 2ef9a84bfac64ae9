/**
 * What the state file is worth over whole runs: it always carries what `persisted` says, it is
 * never another identity's file that is applied or deleted, failed saves are retried, and a
 * restart at any point, including inside a save, brings back a whole config.
 */
module ConfigPersistence {
  import opened Base
  import opened RemoteConfig
  import opened StateStore
  import opened ConfigManager
  import opened StringSets

  /** A non-empty `persisted` names the version the state file holds for this identity. */
  ghost predicate DiskAgrees(a: Agent, w: World) {
    w.s.persisted != "" ==> a.hasStore && Holds(w.File(), a.id, w.s.persisted, a.k)
  }

  /** A versioned config in force is a verified config, filtered to the known scanners. */
  ghost predicate VerifiedInForce(a: Agent, s: State) {
    s.haveRemote && s.versioned ==> exists c :: Backs(a, s, c)
  }

  ghost predicate Backs(a: Agent, s: State, c: Config) {
    Version(c, a.k.sha) == s.version && s.cur == c.(scanners := Known(c.scanners))
  }

  lemma StepAgrees(a: Agent, w: World, e: Event)
    requires RoundTrips(a.k) && DiskAgrees(a, w) && VerifiedInForce(a, w.s)
    requires Step(a, w, e).alive
    ensures DiskAgrees(a, Step(a, w, e)) && VerifiedInForce(a, Step(a, w, e).s)
  {
    StepByEffect(a, w, e);
    match EffectOf(a, e.fetch) {
      case Replace(c, v, _) =>
        LoadUndoesSave(a.id, c, e.now, a.k);
        assert Backs(a, Step(a, w, e).s, c);
      case Keep =>
        if w.s.haveRemote && w.s.versioned {
          var c :| Backs(a, w.s, c);
          assert Backs(a, Step(a, w, e).s, c);
        }
      case NotFound =>
        if w.s.haveRemote && w.s.versioned {
          var c :| Backs(a, w.s, c);
          assert Step(a, w, e).s.haveRemote ==> Backs(a, Step(a, w, e).s, c);
        }
      case Merge(_) =>
    }
  }

  lemma {:induction false} DiskAlwaysAgrees(a: Agent, disk: Disk, env: LoadEnv, events: seq<Event>)
    requires RoundTrips(a.k) && Run(a, disk, env, events).alive
    ensures DiskAgrees(a, Run(a, disk, env, events)) && VerifiedInForce(a, Run(a, disk, env, events).s)
  {
    if events == [] {
      var s := Start(a, Visible(disk), env);
      if s.haveRemote {
        var c := Load(Visible(disk), a.id, env, a.k).config;
        assert Backs(a, s, c);
      }
    } else {
      DiskAlwaysAgrees(a, disk, env, events[..|events| - 1]);
      StepAgrees(a, Run(a, disk, env, events[..|events| - 1]), events[|events| - 1]);
    }
  }

  /** A file written for another identity is never applied. */
  lemma ForeignFileIgnored(a: Agent, file: Option<seq<Byte>>, env: LoadEnv)
    requires Foreign(file, a.id, a.k)
    ensures !Start(a, file, env).haveRemote && Start(a, file, env).persisted == ""
  {
  }

  /** Nor ever deleted: no step of any run removes it; only a whole save of this agent's own config replaces it. */
  lemma ForeignFileSurvives(a: Agent, disk: Disk, env: LoadEnv, events: seq<Event>, e: Event)
    requires RoundTrips(a.k)
    requires Run(a, disk, env, events).alive && Foreign(Run(a, disk, env, events).File(), a.id, a.k)
    ensures var w, eff := Run(a, disk, env, events), EffectOf(a, e.fetch);
            || Step(a, w, e).File() == w.File()
            || (eff.Replace? && Step(a, w, e).File() == Some(Encoded(a.id, eff.config, eff.version, e.now, a.k)))
  {
    DiskAlwaysAgrees(a, disk, env, events);
    StepByEffect(a, Run(a, disk, env, events), e);
  }

  /** The save a poll attempts, if any. */
  predicate AttemptsSave(a: Agent, w: World, e: Event) {
    a.hasStore && EffectOf(a, e.fetch).Replace? && w.s.persisted != EffectOf(a, e.fetch).version
  }

  /**
   * A save is skipped only when the file already holds that version, so a failed save is tried
   * again on every later accepted response of the version; one that meets no fault puts it there.
   */
  lemma FailedSavesAreRetried(a: Agent, disk: Disk, env: LoadEnv, events: seq<Event>, e: Event)
    requires RoundTrips(a.k) && a.hasStore
    requires Run(a, disk, env, events).alive && EffectOf(a, e.fetch).Replace?
    ensures var w, v := Run(a, disk, env, events), EffectOf(a, e.fetch).version;
            var n := Step(a, w, e);
            && (!AttemptsSave(a, w, e) ==> Holds(w.File(), a.id, v, a.k))
            && (AttemptsSave(a, w, e) && e.save.Fails? ==>
                  n.s.persisted != v && n.File() == w.File() && n.s.lastErr == StateWriteFailed)
            && (e.save.NoFault? ==> n.s.persisted == v && Holds(n.File(), a.id, v, a.k))
  {
    DiskAlwaysAgrees(a, disk, env, events);
    var w := Run(a, disk, env, events);
    StepByEffect(a, w, e);
    var eff := EffectOf(a, e.fetch);
    LoadUndoesSave(a.id, eff.config, e.now, a.k);
  }

  /** Why a response is refused, if it is. */
  function RefusalOf(a: Agent, r: FetchResult): Reason {
    if r.tooLarge then ResponseTooLarge
    else if r.err || r.status !in {200, 404} then FetchFailed
    else if r.status == 200 && ParseResponse(r.body, a.k.sha).Rejected? then ParseResponse(r.body, a.k.sha).reason
    else NoError
  }

  /** The second of two adjacent 404s reverts a remote config, and deletes the file it came from. */
  predicate AttemptsDelete(a: Agent, w: World, effs: seq<Effect>, e: Event) {
    a.hasStore && w.s.haveRemote && w.s.persisted != "" && EndsInTwoNotFounds(effs + [EffectOf(a, e.fetch)])
  }

  ghost predicate DiskFailed(a: Agent, w: World, effs: seq<Effect>, e: Event) {
    || (AttemptsSave(a, w, e) && e.save.Fails?)
    || (AttemptsDelete(a, w, effs, e) && !DeleteEffect(w.disk, e.delete).1)
  }

  lemma ErrorOfStep(a: Agent, w: World, effs: seq<Effect>, e: Event)
    requires effs != [] && (w.s.haveRemote ==> w.s.notFounds == if effs[|effs| - 1].NotFound? then 1 else 0)
    requires !e.save.Crashes? && !e.save.CrashesAfterRename?
    ensures Step(a, w, e).s.lastErr == if DiskFailed(a, w, effs, e) then StateWriteFailed else RefusalOf(a, e.fetch)
  {
    match EffectOf(a, e.fetch) {
      case Keep =>
      case NotFound =>
      case Replace(c, v, _) =>
      case Merge(_) =>
    }
  }

  /** The error reported after a poll is that poll's: the disk's if it failed, else the refusal, else none. */
  lemma ErrorIsOfLastPoll(a: Agent, disk: Disk, env: LoadEnv, events: seq<Event>, e: Event)
    requires Run(a, disk, env, events).alive && !e.save.Crashes? && !e.save.CrashesAfterRename?
    ensures var w, effs := Run(a, disk, env, events), Effects(a, disk, env, events);
            Step(a, w, e).s.lastErr == if DiskFailed(a, w, effs, e) then StateWriteFailed else RefusalOf(a, e.fetch)
  {
    RunTracks(a, disk, env, events);
    ErrorOfStep(a, Run(a, disk, env, events), Effects(a, disk, env, events), e);
  }

  /** The hash tells these two configs apart, unless their canonical forms are the same. */
  predicate Distinguishes(sha: Digest, c: Config, d: Config) {
    sha(Canonicalize(c)) == sha(Canonicalize(d)) ==> Canonicalize(c) == Canonicalize(d)
  }

  lemma SameVersionSameCanonical(c: Config, d: Config, sha: Digest)
    requires Distinguishes(sha, c, d) && Version(c, sha) == Version(d, sha)
    ensures Canonicalize(c) == Canonicalize(d)
  {
    var x, y := sha(Canonicalize(c)), sha(Canonicalize(d));
    assert ("c1:" + x)[3..] == x && ("c1:" + y)[3..] == y;
  }

  lemma {:induction false} KnownElements(names: seq<string>)
    ensures forall n :: n in Known(names) <==> n in names && n in ALL_SCANNERS
  {
    if names != [] {
      KnownElements(names[1..]);
      assert names == [names[0]] + names[1..];
    }
  }

  lemma SameSetSameKnown(x: seq<string>, y: seq<string>)
    requires CanonicalList(x) == CanonicalList(y)
    ensures Elements(Known(x)) == Elements(Known(y)) && Elements(x) == Elements(y)
  {
    CanonicalIffSameSet(x, y);
    KnownElements(x);
    KnownElements(y);
    assert forall n :: n in x <==> n in Elements(x);
    assert forall n :: n in y <==> n in Elements(y);
  }

  /** Two snapshots that differ at most in the order and repeats of their lists. */
  ghost predicate SameUpToOrder(x: Snapshot, y: Snapshot) {
    && x.interval == y.interval && x.modelSizeMB == y.modelSizeMB
    && Elements(x.scanners) == Elements(y.scanners) && Elements(x.paths) == Elements(y.paths)
  }

  // ---------------------------------------------------------------- the file over a whole history

  /** What the completed saves and deletes of a history left in place of the initial file. */
  datatype Left = Untouched | Gone | Has(config: Config, version: string, now: int)

  /** `known` is the version the manager believes saved; a history that crashed stays where it was. */
  datatype Ledger = Ledger(left: Left, known: string, alive: bool)

  predicate Renames(fault: Fault) { fault.NoFault? || fault.CrashesAfterRename? }

  predicate Crashing(fault: Fault) { fault.Crashes? || fault.CrashesAfterRename? }

  /** The second of two adjacent 404s, with a remote config to give up. */
  predicate Reverts(effs: seq<Effect>, eff: Effect) {
    EndsInTwoNotFounds(effs + [eff]) && Latest(effs, PickRemote, false)
  }

  /** One poll's entry, from what the poll means and what the disk did; the manager's fields play no part. */
  function Enter(a: Agent, l: Ledger, effs: seq<Effect>, e: Event): Ledger {
    var eff := EffectOf(a, e.fetch);
    if !l.alive || !a.hasStore then l
    else if eff.Replace? && l.known != eff.version then
      Ledger(if Renames(e.save) then Has(eff.config, eff.version, e.now) else l.left,
             if e.save.NoFault? then eff.version else l.known,
             !Crashing(e.save))
    else if Reverts(effs, eff) then
      var removed := l.known != "" && e.delete.chain.Trusted? && !e.delete.removeFails;
      l.(left := if removed then Gone else l.left, known := "")
    else l
  }

  function LedgerOf(a: Agent, disk: Disk, env: LoadEnv, events: seq<Event>): Ledger {
    if events == [] then
      var eff := InitialEffect(a, disk, env);
      Ledger(Untouched, if eff.Replace? then eff.version else "", true)
    else
      var front := events[..|events| - 1];
      Enter(a, LedgerOf(a, disk, env, front), Effects(a, disk, env, front), events[|events| - 1])
  }

  function FileOf(a: Agent, file: Option<seq<Byte>>, left: Left): Option<seq<Byte>> {
    match left
    case Untouched => file
    case Gone => None
    case Has(c, v, now) => Some(Encoded(a.id, c, v, now, a.k))
  }

  ghost predicate Kept(a: Agent, file: Option<seq<Byte>>, w: World, l: Ledger) {
    w.File() == FileOf(a, file, l.left) && w.alive == l.alive && (l.alive ==> w.s.persisted == l.known)
  }

  lemma VersionedEnters(a: Agent, file: Option<seq<Byte>>, w: World, l: Ledger, effs: seq<Effect>, e: Event)
    requires w.alive && Kept(a, file, w, l) && EffectOf(a, e.fetch).Replace?
    ensures var eff := EffectOf(a, e.fetch);
            Kept(a, file, VersionedStep(a, w, eff.config, eff.version, e.now, e.save), Enter(a, l, effs, e))
  {
  }

  lemma StepEnters(a: Agent, file: Option<seq<Byte>>, w: World, l: Ledger, effs: seq<Effect>, e: Event)
    requires w.alive && Kept(a, file, w, l) && Tracks(a, w.s, effs)
    requires l.known != "" ==> a.hasStore
    ensures Kept(a, file, Step(a, w, e), Enter(a, l, effs, e))
  {
    StepByEffect(a, w, e);
    match EffectOf(a, e.fetch) {
      case Replace(_, _, _) => VersionedEnters(a, file, w, l, effs, e);
      case NotFound =>
      case Keep =>
      case Merge(_) =>
    }
  }

  lemma {:induction false} LedgerIsKept(a: Agent, disk: Disk, env: LoadEnv, events: seq<Event>)
    ensures var w, l := Run(a, disk, env, events), LedgerOf(a, disk, env, events);
            Kept(a, Visible(disk), w, l) && (l.known != "" ==> a.hasStore)
  {
    if events != [] {
      var front := events[..|events| - 1];
      LedgerIsKept(a, disk, env, front);
      if Run(a, disk, env, front).alive {
        RunTracks(a, disk, env, front);
        StepEnters(a, Visible(disk), Run(a, disk, env, front), LedgerOf(a, disk, env, front),
                   Effects(a, disk, env, front), events[|events| - 1]);
      }
    }
  }

  ghost predicate LeftOk(a: Agent, left: Left) {
    left.Has? ==> a.hasStore && left.version == Version(left.config, a.k.sha) && Validate(left.config) == NoError
  }

  lemma {:induction false} LedgerIsVerified(a: Agent, disk: Disk, env: LoadEnv, events: seq<Event>)
    ensures LeftOk(a, LedgerOf(a, disk, env, events).left)
  {
    if events != [] {
      LedgerIsVerified(a, disk, env, events[..|events| - 1]);
      var r := events[|events| - 1].fetch;
    }
  }

  /** The state a restart begins in, by what was left. */
  function Restarted(a: Agent, file: Option<seq<Byte>>, left: Left): State {
    match left
    case Untouched => Start(a, file, HEALTHY)
    case Gone => Fresh(a)
    case Has(c, v, now) =>
      if |Encoded(a.id, c, v, now, a.k)| <= MAX_RESPONSE_BYTES
      then ApplyVersioned(Fresh(a), c, v).(source := Persisted, persisted := v)
      else Fresh(a).(lastErr := StateCorrupt)
  }

  /**
   * After any history, even one that ended inside a save, the file is what the last completed save
   * or delete left, whole, and a restart is in force with exactly that config and version.
   */
  lemma RestartNeverMixes(a: Agent, disk: Disk, env: LoadEnv, events: seq<Event>)
    requires RoundTrips(a.k)
    ensures var w, left := Run(a, disk, env, events), LedgerOf(a, disk, env, events).left;
            && w.File() == FileOf(a, Visible(disk), left)
            && Start(a, w.File(), HEALTHY) == Restarted(a, Visible(disk), left)
  {
    LedgerIsKept(a, disk, env, events);
    LedgerIsVerified(a, disk, env, events);
    var left := LedgerOf(a, disk, env, events).left;
    if left.Has? { LoadUndoesSave(a.id, left.config, left.now, a.k); }
  }

  lemma StepMayRemain(a: Agent, w: World, e: Event, f: Option<seq<Byte>>)
    ensures MayRemain(Step(a, w, e).disk, f) <==> MayRemain(w.disk, f) || f == Step(a, w, e).File()
  {
    StepByEffect(a, w, e);
    var eff := EffectOf(a, e.fetch);
    if eff.Replace? {
      RelinkedMayRemain(w.disk, Some(Data(Encoded(a.id, eff.config, eff.version, e.now, a.k), true)), f);
    }
    RelinkedMayRemain(w.disk, None, f);
  }

  /**
   * A power loss after any history leaves what may have been left before it began, or the whole
   * file of some moment of it, and any of these is possible: no directory is ever flushed.
   */
  lemma {:induction false} PowerLossRollsBack(a: Agent, disk: Disk, env: LoadEnv, events: seq<Event>,
                                              f: Option<seq<Byte>>)
    ensures MayRemain(Run(a, disk, env, events).disk, f) <==>
            MayRemain(disk, f) || exists j | 0 <= j <= |events| :: f == FileAt(a, disk, env, events, j)
  {
    if events == [] {
      assert forall j | 0 <= j <= 0 :: FileAt(a, disk, env, events, j) == Visible(disk);
    } else {
      var front := events[..|events| - 1];
      PowerLossRollsBack(a, disk, env, front, f);
      assert forall j | 0 <= j <= |front| :: events[..j] == front[..j];
      assert events[..|events|] == events && front[..|front|] == front;
      assert FileAt(a, disk, env, events, |events|) == Run(a, disk, env, events).File();
      assert FileAt(a, disk, env, front, |front|) == Run(a, disk, env, front).File();
      if Run(a, disk, env, front).alive { StepMayRemain(a, Run(a, disk, env, front), events[|events| - 1], f); }
      assert forall j | 0 <= j <= |front| :: FileAt(a, disk, env, front, j) == FileAt(a, disk, env, events, j);
    }
  }

  function FileAt(a: Agent, disk: Disk, env: LoadEnv, events: seq<Event>, j: nat): Option<seq<Byte>>
    requires j <= |events|
  {
    Run(a, disk, env, events[..j]).File()
  }

  // ---------------------------------------------------------------- order and repeats

  function PickConfig(e: Effect): Option<Config> { if e.Replace? then Some(e.config) else None }

  /** The latest accepted versioned config. */
  function LatestConfig(effs: seq<Effect>): Config { Latest(effs, PickConfig, NO_CONFIG) }

  ghost predicate InForce(a: Agent, s: State, effs: seq<Effect>) {
    s.haveRemote && s.versioned ==>
      && s.cur == LatestConfig(effs).(scanners := Known(LatestConfig(effs).scanners))
      && s.version == Version(LatestConfig(effs), a.k.sha)
  }

  lemma StepInForce(a: Agent, w: World, e: Event, effs: seq<Effect>)
    requires Tracks(a, w.s, effs) && InForce(a, w.s, effs)
    ensures InForce(a, Step(a, w, e).s, effs + [EffectOf(a, e.fetch)])
  {
    StepByEffect(a, w, e);
    LatestSnoc(effs, EffectOf(a, e.fetch), PickConfig, NO_CONFIG);
  }

  lemma {:induction false} LatestConfigInForce(a: Agent, disk: Disk, env: LoadEnv, events: seq<Event>)
    requires Run(a, disk, env, events).alive
    ensures InForce(a, Run(a, disk, env, events).s, Effects(a, disk, env, events))
  {
    if events != [] {
      var front := events[..|events| - 1];
      LatestConfigInForce(a, disk, env, front);
      RunTracks(a, disk, env, front);
      StepInForce(a, Run(a, disk, env, front), events[|events| - 1], Effects(a, disk, env, front));
    }
  }

  /** The config a healthy load of the file would give. */
  function SavedConfig(a: Agent, file: Option<seq<Byte>>, left: Left): Config {
    if left.Has? then left.config
    else match Load(file, a.id, HEALTHY, a.k) case Loaded(c, _) => c case _ => NO_CONFIG
  }

  /** A versioned config is in force, its version is saved, and the file is within the cap. */
  predicate SavedInForce(w: World) {
    && w.alive && w.s.haveRemote && w.s.versioned && w.s.persisted == w.s.version
    && w.File().Some? && |w.File().value| <= MAX_RESPONSE_BYTES
  }

  /** What a healthy load of a file that holds `v` puts in force. */
  lemma HoldsStarts(a: Agent, file: Option<seq<Byte>>, v: string)
    requires a.hasStore && v != "" && Holds(file, a.id, v, a.k) && |file.value| <= MAX_RESPONSE_BYTES
    ensures var l := Load(file, a.id, HEALTHY, a.k);
            && l.Loaded? && l.version == v && Version(l.config, a.k.sha) == v
            && Start(a, file, HEALTHY) == ApplyVersioned(Fresh(a), l.config, v).(source := Persisted, persisted := v)
  {
    LoadedIff(file, a.id, HEALTHY, a.k, a.k.decode(file.value).value.config, v);
  }

  lemma LeftLoads(a: Agent, file: Option<seq<Byte>>, left: Left)
    requires RoundTrips(a.k) && LeftOk(a, left) && Load(FileOf(a, file, left), a.id, HEALTHY, a.k).Loaded?
    ensures Load(FileOf(a, file, left), a.id, HEALTHY, a.k).config == SavedConfig(a, file, left)
  {
    if left.Has? { LoadUndoesSave(a.id, left.config, left.now, a.k); }
  }

  lemma SavedConfigLoads(a: Agent, disk: Disk, env: LoadEnv, events: seq<Event>)
    requires RoundTrips(a.k) && SavedInForce(Run(a, disk, env, events))
    ensures var w := Run(a, disk, env, events);
            var c := SavedConfig(a, Visible(disk), LedgerOf(a, disk, env, events).left);
            && Version(c, a.k.sha) == w.s.version == Version(LatestConfig(Effects(a, disk, env, events)), a.k.sha)
            && Start(a, w.File(), HEALTHY) ==
               ApplyVersioned(Fresh(a), c, w.s.version).(source := Persisted, persisted := w.s.version)
  {
    var w, left := Run(a, disk, env, events), LedgerOf(a, disk, env, events).left;
    assert w.s.version == Version(LatestConfig(Effects(a, disk, env, events)), a.k.sha) by {
      LatestConfigInForce(a, disk, env, events);
    }
    assert DiskAgrees(a, w) by { DiskAlwaysAgrees(a, disk, env, events); }
    assert w.File() == FileOf(a, Visible(disk), left) by { LedgerIsKept(a, disk, env, events); }
    assert LeftOk(a, left) by { LedgerIsVerified(a, disk, env, events); }
    HoldsStarts(a, w.File(), w.s.version);
    LeftLoads(a, Visible(disk), left);
  }

  /**
   * In every reachable state whose config is versioned and saved, a restart reports the same
   * version and cap, and the same snapshot up to the order and repeats of its lists.
   */
  lemma RestartKeepsConfig(a: Agent, disk: Disk, env: LoadEnv, events: seq<Event>)
    requires RoundTrips(a.k) && SavedInForce(Run(a, disk, env, events))
    requires Distinguishes(a.k.sha, SavedConfig(a, Visible(disk), LedgerOf(a, disk, env, events).left),
                           LatestConfig(Effects(a, disk, env, events)))
    ensures var w := Run(a, disk, env, events);
            var r := Start(a, w.File(), HEALTHY);
            && SameUpToOrder(SnapshotOf(a, r), SnapshotOf(a, w.s))
            && StatusOf(r) == StatusOf(w.s).(source := Persisted, error := NoError)
  {
    SavedConfigLoads(a, disk, env, events);
    LatestConfigInForce(a, disk, env, events);
    var c := SavedConfig(a, Visible(disk), LedgerOf(a, disk, env, events).left);
    var d := LatestConfig(Effects(a, disk, env, events));
    SameVersionSameCanonical(c, d, a.k.sha);
    SameSetSameKnown(c.scanners, d.scanners);
    SameSetSameKnown(c.paths, d.paths);
  }

  /**
   * The restart snapshot is the very snapshot in force exactly when the saved response and the
   * latest accepted one list the same known scanners and the same paths in the same order.
   */
  lemma RestartIsExactIff(a: Agent, disk: Disk, env: LoadEnv, events: seq<Event>)
    requires RoundTrips(a.k) && SavedInForce(Run(a, disk, env, events))
    requires Distinguishes(a.k.sha, SavedConfig(a, Visible(disk), LedgerOf(a, disk, env, events).left),
                           LatestConfig(Effects(a, disk, env, events)))
    ensures var w := Run(a, disk, env, events);
            var saved := SavedConfig(a, Visible(disk), LedgerOf(a, disk, env, events).left);
            var latest := LatestConfig(Effects(a, disk, env, events));
            SnapshotOf(a, Start(a, w.File(), HEALTHY)) == SnapshotOf(a, w.s) <==>
            Known(saved.scanners) == Known(latest.scanners) && saved.paths == latest.paths
  {
    SavedConfigLoads(a, disk, env, events);
    LatestConfigInForce(a, disk, env, events);
    var saved := SavedConfig(a, Visible(disk), LedgerOf(a, disk, env, events).left);
    SameVersionSameCanonical(saved, LatestConfig(Effects(a, disk, env, events)), a.k.sha);
  }

  /** A poll that serves `c` and meets no fault. */
  function Serving(a: Agent, c: Config, now: int): Event {
    Event(FetchResult(200, Decoded(WireOf(c, Version(c, a.k.sha))), false, false), now, NoFault,
          DeleteEnv(Trusted, false))
  }

  /**
   * And it can differ: with no file to begin with, a response, then one that only swaps two
   * scanners, then a restart, brings the first order back.
   */
  lemma RestartMayReorder(a: Agent, c: Config, now: int)
    requires RoundTrips(a.k) && a.hasStore && c.scanners == ["gpu", "models"] && Validate(c) == NoError
    requires |Encoded(a.id, c, Version(c, a.k.sha), now, a.k)| <= MAX_RESPONSE_BYTES
    ensures var d := c.(scanners := ["models", "gpu"]);
            var w := Run(a, Booted(None), HEALTHY, [Serving(a, c, now), Serving(a, d, now)]);
            && w.alive && SnapshotOf(a, w.s).scanners == ["models", "gpu"]
            && SnapshotOf(a, Start(a, w.File(), HEALTHY)).scanners == ["gpu", "models"]
  {
    var d := c.(scanners := ["models", "gpu"]);
    SwappedScanners(a, c, d);
    var e1, e2 := Serving(a, c, now), Serving(a, d, now);
    var w0 := Run(a, Booted(None), HEALTHY, []);
    assert [e1][..0] == [] && [e1, e2][..1] == [e1];
    SameVersionServed(a, Step(a, w0, e1), d, now);
    LoadUndoesSave(a.id, c, now, a.k);
  }

  /** One of the version already saved is put in force and not saved. */
  lemma SameVersionServed(a: Agent, w: World, d: Config, now: int)
    requires w.alive && w.s.persisted == Version(d, a.k.sha) && Validate(d) == NoError
    ensures var n := Step(a, w, Serving(a, d, now));
            n.alive && n.File() == w.File() && SnapshotOf(a, n.s).scanners == Known(d.scanners)
  {
    StepByEffect(a, w, Serving(a, d, now));
  }

  lemma SwappedScanners(a: Agent, c: Config, d: Config)
    requires c.scanners == ["gpu", "models"] && d == c.(scanners := ["models", "gpu"])
    ensures Version(d, a.k.sha) == Version(c, a.k.sha) && Validate(d) == Validate(c)
    ensures Known(c.scanners) == c.scanners && Known(d.scanners) == d.scanners
  {
    CanonicalIffSameSet(c.scanners, d.scanners);
    TwoKnown("gpu", "models");
    TwoKnown("models", "gpu");
  }

  lemma TwoKnown(x: string, y: string)
    requires x in ALL_SCANNERS && y in ALL_SCANNERS
    ensures Known([x, y]) == [x, y]
  {
    KnownKeepsKnown([x, y]);
  }
}
