/**
 * The agent's effective config (manager.go): a state machine driven by fetch results, sitting
 * on the state file, restarted at any time. `Step` and `Start` are its transitions, `Manager`
 * the object that performs them, and `Latest` the history it must agree with.
 */
module ConfigManager {
  import opened Base
  import opened RemoteConfig
  import opened StateStore

  /** The local YAML or built-in defaults, as far as remote config can override them. */
  datatype Local = Local(interval: int, scanners: seq<string>, paths: seq<string>, modelSizeMB: int, fileLoaded: bool)

  datatype Source = Remote | Persisted | LocalFile | Defaults

  /** One process life: its local config, identity, whether persistence is on, and the codec. */
  datatype Agent = Agent(base: Local, id: Identity, hasStore: bool, k: Codec)

  datatype FetchResult = FetchResult(status: int, body: Body, tooLarge: bool, err: bool)

  /** One poll, with the clock and what the disk will do if it is touched. */
  datatype Event = Event(fetch: FetchResult, now: int, save: Fault, delete: DeleteEnv)

  datatype State = State(cur: Config, haveRemote: bool, versioned: bool, version: string, source: Source,
                         lastErr: Reason, persisted: string, notFounds: nat)

  datatype World = World(s: State, disk: Disk, alive: bool) {
    function File(): Option<seq<Byte>> { Visible(disk) }
  }

  datatype Snapshot = Snapshot(interval: int, scanners: seq<string>, paths: seq<string>, modelSizeMB: int)

  datatype Status = Status(version: string, source: Source, error: Reason, maxReport: int)

  const NO_CONFIG := Config(0, [], [], 0, 0)

  // ---------------------------------------------------------------- transitions

  function LocalSource(base: Local): Source { if base.fileLoaded then LocalFile else Defaults }

  function FromLocal(base: Local): Config { Config(base.interval, base.scanners, base.paths, base.modelSizeMB, 0) }

  function Fresh(a: Agent): State {
    State(NO_CONFIG, false, false, "", LocalSource(a.base), NoError, "", 0)
  }

  function ApplyVersioned(s: State, c: Config, v: string): State {
    s.(cur := c.(scanners := Known(c.scanners)), haveRemote := true, versioned := true, version := v)
  }

  /** `NewManager` and `LoadPersisted`. */
  function Start(a: Agent, file: Option<seq<Byte>>, env: LoadEnv): State {
    var s := Fresh(a);
    if !a.hasStore then s
    else
      match Load(file, a.id, env, a.k)
      case Absent => s
      case Ignored(reason) => s.(lastErr := reason)
      case Loaded(c, v) => ApplyVersioned(s, c, v).(source := Persisted, persisted := v)
  }

  function Merged(a: Agent, s: State, u: Update): State
    requires u.Legacy?
  {
    var cur := if s.haveRemote then s.cur else FromLocal(a.base);
    s.(cur := cur.(interval := u.interval.GetOr(cur.interval), scanners := u.scanners.GetOr(cur.scanners),
                   paths := u.paths.GetOr(cur.paths)),
       haveRemote := true, versioned := false, version := "", source := Remote, lastErr := NoError, notFounds := 0)
  }

  /** `handleNotFound` */
  function NotFoundStep(a: Agent, w: World, env: DeleteEnv): World {
    var s := w.s.(lastErr := NoError, notFounds := w.s.notFounds + 1);
    if s.notFounds < 2 || !s.haveRemote then w.(s := s)
    else
      var (disk, ok) := if a.hasStore && s.persisted != "" then DeleteEffect(w.disk, env) else (w.disk, true);
      World(s.(cur := NO_CONFIG, haveRemote := false, versioned := false, version := "", persisted := "",
               source := LocalSource(a.base), notFounds := 0, lastErr := if ok then NoError else StateWriteFailed),
            disk, true)
  }

  function VersionedStep(a: Agent, w: World, c: Config, v: string, now: int, fault: Fault): World {
    var s := ApplyVersioned(w.s, c, v).(source := Remote, lastErr := NoError, notFounds := 0);
    if !a.hasStore || s.persisted == v then w.(s := s)
    else
      var (disk, r) := SaveEffect(w.disk, Encoded(a.id, c, v, now, a.k), fault);
      World(match r
            case Saved => s.(persisted := v)
            case SaveFailed => s.(lastErr := StateWriteFailed)
            case Crashed => s,
            disk, r != Crashed)
  }

  /** `Apply` */
  function Step(a: Agent, w: World, e: Event): World {
    var rejected := w.s.(notFounds := 0);
    var r := e.fetch;
    if r.tooLarge then w.(s := rejected.(lastErr := ResponseTooLarge))
    else if r.err || (r.status != 200 && r.status != 404) then w.(s := rejected.(lastErr := FetchFailed))
    else if r.status == 404 then NotFoundStep(a, w, e.delete)
    else
      match ParseResponse(r.body, a.k.sha)
      case Rejected(reason) => w.(s := rejected.(lastErr := reason))
      case Accepted(Versioned(v, c)) => VersionedStep(a, w, c, v, e.now, e.save)
      case Accepted(u) => w.(s := Merged(a, w.s, u))
  }

  /** A process life: start on `disk`, then poll until the events end or the process dies. */
  function Run(a: Agent, disk: Disk, env: LoadEnv, events: seq<Event>): World {
    if events == [] then World(Start(a, Visible(disk), env), disk, true)
    else
      var w := Run(a, disk, env, events[..|events| - 1]);
      if w.alive then Step(a, w, events[|events| - 1]) else w
  }

  function SnapshotOf(a: Agent, s: State): Snapshot {
    if s.haveRemote then
      Snapshot(s.cur.interval, s.cur.scanners, s.cur.paths, if s.versioned then s.cur.modelSizeMB
               else a.base.modelSizeMB)
    else Snapshot(a.base.interval, a.base.scanners, a.base.paths, a.base.modelSizeMB)
  }

  function StatusOf(s: State): Status {
    if s.haveRemote && s.versioned then Status(s.version, s.source, s.lastErr, s.cur.maxReport)
    else Status("", s.source, s.lastErr, 0)
  }

  // ---------------------------------------------------------------- the object

  class Manager {
    const a: Agent
    const store: Store?
    var cur: Config
    var haveRemote: bool
    var versioned: bool
    var version: string
    var source: Source
    var lastErr: Reason
    var persisted: string
    var notFounds: nat
    ghost var disk0: Disk
    ghost var env0: LoadEnv
    ghost var history: seq<Event>

    ghost function Current(): State
      reads this
    {
      State(cur, haveRemote, versioned, version, source, lastErr, persisted, notFounds)
    }

    ghost function OnDisk(): Disk
      reads this, store
    {
      if store == null then disk0 else store.disk
    }

    /** The object is where its history leads. */
    ghost predicate Valid()
      reads this, store
    {
      && a.hasStore == (store != null)
      && (store != null ==> store.k == a.k)
      && World(Current(), OnDisk(), true) == Run(a, disk0, env0, history)
    }

    /** `NewManager` followed by `LoadPersisted`, as the agent's main loop does. */
    constructor (a: Agent, store: Store?, env: LoadEnv)
      requires a.hasStore == (store != null) && (store != null ==> store.k == a.k)
      ensures Valid() && this.a == a && this.store == store && history == [] && env0 == env
      ensures store != null ==> disk0 == store.disk
    {
      this.a, this.store := a, store;
      cur, haveRemote, versioned, version, persisted, notFounds := NO_CONFIG, false, false, "", "", 0;
      source, lastErr := LocalSource(a.base), NoError;
      disk0 := if store == null then Booted(None) else store.disk;
      env0, history := env, [];
      new;
      if store != null {
        var r := Load(Visible(store.disk), a.id, env, a.k);
        match r {
          case Absent =>
          case Ignored(reason) => lastErr := reason;
          case Loaded(c, v) =>
            ApplyVersionedConfig(c, v);
            source, persisted := Persisted, v;
        }
      }
    }

    method ApplyVersionedConfig(c: Config, v: string)
      modifies this`cur, this`haveRemote, this`versioned, this`version
      ensures Current() == ApplyVersioned(old(Current()), c, v)
    {
      var scanners, dropped := KnownScanners(c.scanners);
      cur, haveRemote, versioned, version := c.(scanners := scanners), true, true, v;
    }

    /** `Apply`; `alive` is false when the process died inside the save. */
    method Apply(e: Event) returns (alive: bool)
      requires Valid()
      modifies this, store
      ensures history == old(history) + [e] && disk0 == old(disk0) && env0 == old(env0)
      ensures alive ==> Valid()
      ensures Run(a, disk0, env0, history).disk == OnDisk() && Run(a, disk0, env0, history).alive == alive
    {
      assert (history + [e])[..|history|] == history;
      history := history + [e];
      var r := e.fetch;
      if r.tooLarge {
        notFounds, lastErr := 0, ResponseTooLarge;
        return true;
      }
      if r.err || (r.status != 200 && r.status != 404) {
        notFounds, lastErr := 0, FetchFailed;
        return true;
      }
      if r.status == 404 {
        HandleNotFound(e.delete);
        return true;
      }
      match ParseResponse(r.body, a.k.sha) {
        case Rejected(reason) =>
          notFounds, lastErr := 0, reason;
          return true;
        case Accepted(Versioned(v, c)) =>
          alive := AcceptVersioned(c, v, e.now, e.save);
        case Accepted(Legacy(interval, scanners, paths)) =>
          MergeLegacy(interval, scanners, paths);
          return true;
      }
    }

    method AcceptVersioned(c: Config, v: string, now: int, fault: Fault) returns (alive: bool)
      requires a.hasStore == (store != null) && (store != null ==> store.k == a.k)
      modifies this`cur, this`haveRemote, this`versioned, this`version, this`source, this`lastErr, this`persisted,
               this`notFounds, store
      ensures World(Current(), OnDisk(), alive) == VersionedStep(a, old(World(Current(), OnDisk(), true)), c, v, now,
                                                                 fault)
    {
      notFounds := 0;
      ApplyVersionedConfig(c, v);
      source, lastErr := Remote, NoError;
      // The config is saved as received: its hash covers the unfiltered scanner list.
      if store != null && persisted != v {
        var saved := store.Save(a.id, c, v, now, fault);
        match saved {
          case Saved => persisted := v;
          case SaveFailed => lastErr := StateWriteFailed;
          case Crashed => return false;
        }
      }
      return true;
    }

    method MergeLegacy(interval: Option<int>, scanners: Option<seq<string>>, paths: Option<seq<string>>)
      modifies this`cur, this`haveRemote, this`versioned, this`version, this`source, this`lastErr, this`notFounds
      ensures Current() == Merged(a, old(Current()), Legacy(interval, scanners, paths))
    {
      notFounds := 0;
      if !haveRemote {
        cur := FromLocal(a.base);
      }
      if interval.Some? { cur := cur.(interval := interval.value); }
      if scanners.Some? { cur := cur.(scanners := scanners.value); }
      if paths.Some? { cur := cur.(paths := paths.value); }
      haveRemote, versioned, version := true, false, "";
      source, lastErr := Remote, NoError;
    }

    method HandleNotFound(env: DeleteEnv)
      requires a.hasStore == (store != null)
      modifies this`cur, this`haveRemote, this`versioned, this`version, this`source, this`lastErr, this`persisted,
               this`notFounds, store
      ensures World(Current(), OnDisk(), true) == NotFoundStep(a, old(World(Current(), OnDisk(), true)), env)
    {
      lastErr, notFounds := NoError, notFounds + 1;
      if notFounds < 2 || !haveRemote {
        return;
      }
      if store != null && persisted != "" {
        var ok := store.Delete(env);
        if !ok { lastErr := StateWriteFailed; }
      }
      cur, haveRemote, versioned, version, persisted := NO_CONFIG, false, false, "", "";
      source, notFounds := LocalSource(a.base), 0;
    }

    /** `Snapshot` and `Status` agree with the history at every moment of every life. */
    method Report() returns (snap: Snapshot, status: Status)
      requires Valid()
      ensures snap == SnapshotSpec(a, Effects(a, disk0, env0, history))
      ensures status.(error := NoError) == StatusSpec(a, Effects(a, disk0, env0, history))
    {
      snap, status := SnapshotOf(a, State(cur, haveRemote, versioned, version, source, lastErr, persisted, notFounds)),
      StatusOf(State(cur, haveRemote, versioned, version, source, lastErr, persisted, notFounds));
      SnapshotIsHistory(a, disk0, env0, history);
    }
  }

  // ---------------------------------------------------------------- the history specification

  /** What one poll (or the initial load) means for the config, whatever the disk does. */
  datatype Effect = Keep | NotFound | Replace(config: Config, version: string, source: Source) | Merge(u: Update)

  function EffectOf(a: Agent, r: FetchResult): Effect {
    if r.tooLarge || r.err then Keep
    else if r.status == 404 then NotFound
    else if r.status != 200 then Keep
    else
      match ParseResponse(r.body, a.k.sha)
      case Rejected(_) => Keep
      case Accepted(Versioned(v, c)) => Replace(c, v, Remote)
      case Accepted(u) => Merge(u)
  }

  function InitialEffect(a: Agent, disk: Disk, env: LoadEnv): Effect {
    if !a.hasStore then Keep
    else
      match Load(Visible(disk), a.id, env, a.k)
      case Loaded(c, v) => Replace(c, v, Persisted)
      case _ => Keep
  }

  function Effects(a: Agent, disk: Disk, env: LoadEnv, events: seq<Event>): seq<Effect> {
    if events == [] then [InitialEffect(a, disk, env)]
    else Effects(a, disk, env, events[..|events| - 1]) + [EffectOf(a, events[|events| - 1].fetch)]
  }

  predicate EndsInTwoNotFounds(effs: seq<Effect>) {
    |effs| >= 2 && effs[|effs| - 1].NotFound? && effs[|effs| - 2].NotFound?
  }

  /** The latest value written since the last two adjacent 404s, or the local value. */
  function Latest<T>(effs: seq<Effect>, pick: Effect -> Option<T>, base: T): T {
    if effs == [] || EndsInTwoNotFounds(effs) then base
    else
      match pick(effs[|effs| - 1])
      case Some(v) => v
      case None => Latest(effs[..|effs| - 1], pick, base)
  }

  function PickRemote(e: Effect): Option<bool> { if e.Replace? || e.Merge? then Some(true) else None }

  function PickInterval(e: Effect): Option<int> {
    match e
    case Replace(c, _, _) => Some(c.interval)
    case Merge(Legacy(interval, _, _)) => interval
    case _ => None
  }

  function PickScanners(e: Effect): Option<seq<string>> {
    match e
    case Replace(c, _, _) => Some(Known(c.scanners))
    case Merge(Legacy(_, scanners, _)) => scanners
    case _ => None
  }

  function PickPaths(e: Effect): Option<seq<string>> {
    match e
    case Replace(c, _, _) => Some(c.paths)
    case Merge(Legacy(_, _, paths)) => paths
    case _ => None
  }

  function PickModelSize(local: int): Effect -> Option<int> {
    (e: Effect) => if e.Replace? then Some(e.config.modelSizeMB) else if e.Merge? then Some(local) else None
  }

  function PickVersion(e: Effect): Option<string> {
    if e.Replace? then Some(e.version) else if e.Merge? then Some("") else None
  }

  function PickCap(e: Effect): Option<int> {
    if e.Replace? then Some(e.config.maxReport) else if e.Merge? then Some(0) else None
  }

  function PickSource(e: Effect): Option<Source> {
    if e.Replace? then Some(e.source) else if e.Merge? then Some(Remote) else None
  }

  function SnapshotSpec(a: Agent, effs: seq<Effect>): Snapshot {
    Snapshot(Latest(effs, PickInterval, a.base.interval), Latest(effs, PickScanners, a.base.scanners),
             Latest(effs, PickPaths, a.base.paths), Latest(effs, PickModelSize(a.base.modelSizeMB), a.base.modelSizeMB))
  }

  function StatusSpec(a: Agent, effs: seq<Effect>): Status {
    Status(Latest(effs, PickVersion, ""), Latest(effs, PickSource, LocalSource(a.base)), NoError,
           Latest(effs, PickCap, 0))
  }

  lemma LatestSnoc<T>(effs: seq<Effect>, e: Effect, pick: Effect -> Option<T>, base: T)
    ensures Latest(effs + [e], pick, base) ==
            if EndsInTwoNotFounds(effs + [e]) then base
            else if pick(e).Some? then pick(e).value else Latest(effs, pick, base)
  {
    assert (effs + [e])[..|effs|] == effs;
  }

  /** Nothing remote since the cut: every field is local. */
  lemma {:induction false} LatestLocal<T>(effs: seq<Effect>, pick: Effect -> Option<T>, base: T)
    requires forall e :: pick(e).Some? ==> e.Replace? || e.Merge?
    requires !Latest(effs, PickRemote, false)
    ensures Latest(effs, pick, base) == base
  {
    if effs != [] && !EndsInTwoNotFounds(effs) {
      var last := effs[|effs| - 1];
      if pick(last).None? { LatestLocal(effs[..|effs| - 1], pick, base); }
    }
  }

  /** How the fields of the machine represent the history. */
  ghost predicate Tracks(a: Agent, s: State, effs: seq<Effect>) {
    && effs != []
    && s.haveRemote == Latest(effs, PickRemote, false)
    && s.source == Latest(effs, PickSource, LocalSource(a.base))
    && (s.haveRemote ==>
          && s.cur.interval == Latest(effs, PickInterval, a.base.interval)
          && s.cur.scanners == Latest(effs, PickScanners, a.base.scanners)
          && s.cur.paths == Latest(effs, PickPaths, a.base.paths)
          && s.notFounds == if effs[|effs| - 1].NotFound? then 1 else 0)
    && SnapshotOf(a, s).modelSizeMB == Latest(effs, PickModelSize(a.base.modelSizeMB), a.base.modelSizeMB)
    && StatusOf(s).version == Latest(effs, PickVersion, "")
    && StatusOf(s).maxReport == Latest(effs, PickCap, 0)
  }

  lemma AllLocal(a: Agent, effs: seq<Effect>)
    requires !Latest(effs, PickRemote, false)
    ensures SnapshotSpec(a, effs) == Snapshot(a.base.interval, a.base.scanners, a.base.paths, a.base.modelSizeMB)
  {
    LatestLocal(effs, PickInterval, a.base.interval);
    LatestLocal(effs, PickScanners, a.base.scanners);
    LatestLocal(effs, PickPaths, a.base.paths);
    LatestLocal(effs, PickModelSize(a.base.modelSizeMB), a.base.modelSizeMB);
  }

  lemma RestLocal(a: Agent, effs: seq<Effect>)
    requires !Latest(effs, PickRemote, false)
    ensures Latest(effs, PickVersion, "") == "" && Latest(effs, PickCap, 0) == 0
    ensures Latest(effs, PickSource, LocalSource(a.base)) == LocalSource(a.base)
  {
    LatestLocal(effs, PickVersion, "");
    LatestLocal(effs, PickCap, 0);
    LatestLocal(effs, PickSource, LocalSource(a.base));
  }

  lemma NotFoundTracks(a: Agent, w: World, effs: seq<Effect>, env: DeleteEnv)
    requires Tracks(a, w.s, effs)
    ensures Tracks(a, NotFoundStep(a, w, env).s, effs + [NotFound])
  {
    if !w.s.haveRemote { AllLocal(a, effs); RestLocal(a, effs); }
  }

  lemma MergeTracks(a: Agent, s: State, effs: seq<Effect>, u: Update)
    requires Tracks(a, s, effs) && u.Legacy?
    ensures Tracks(a, Merged(a, s, u), effs + [Merge(u)])
  {
    if !s.haveRemote { AllLocal(a, effs); }
  }

  /** `Step`, by what the poll means. */
  lemma StepByEffect(a: Agent, w: World, e: Event)
    ensures match EffectOf(a, e.fetch)
            case Keep => Step(a, w, e) == w.(s := w.s.(notFounds := 0, lastErr := Step(a, w, e).s.lastErr))
            case NotFound => Step(a, w, e) == NotFoundStep(a, w, e.delete)
            case Replace(c, v, source) => source == Remote && Step(a, w, e) == VersionedStep(a, w, c, v, e.now, e.save)
            case Merge(u) => u.Legacy? && Step(a, w, e) == w.(s := Merged(a, w.s, u))
  {
  }

  /** A fetch of a body in the older server's form. */
  ghost predicate FetchesLegacy(r: FetchResult) {
    && r.status == 200 && !r.tooLarge && !r.err && r.body.Decoded? && Unversioned(r.body.w)
    && HasLegacyFields(r.body.w) && LegacyInBounds(r.body.w)
  }

  /**
   * An older server's response is overlaid on the snapshot in force: a positive interval and each
   * non-empty list are the wire's own, the rest stays, and the model size is the local one.
   */
  lemma LegacyIsOverlaid(a: Agent, w: World, e: Event)
    requires FetchesLegacy(e.fetch)
    ensures var n, before, sent := Step(a, w, e), SnapshotOf(a, w.s), e.fetch.body.w;
            && n.disk == w.disk && n.s.persisted == w.s.persisted && n.s.notFounds == 0
            && StatusOf(n.s) == Status("", Remote, NoError, 0)
            && SnapshotOf(a, n.s) == Snapshot(
                 if sent.interval.value > 0 then sent.interval.value else before.interval,
                 if sent.scanners.value != [] then sent.scanners.value else before.scanners,
                 if sent.paths.value != [] then sent.paths.value else before.paths, a.base.modelSizeMB)
  {
    var sent := e.fetch.body.w;
    PathsInBoundsIff(sent.paths.value);
    StepByEffect(a, w, e);
  }

  lemma StepTracks(a: Agent, w: World, e: Event, effs: seq<Effect>)
    requires Tracks(a, w.s, effs)
    ensures Tracks(a, Step(a, w, e).s, effs + [EffectOf(a, e.fetch)])
  {
    var s := Step(a, w, e).s;
    StepByEffect(a, w, e);
    match EffectOf(a, e.fetch) {
      case Keep =>
      case NotFound => NotFoundTracks(a, w, effs, e.delete);
      case Replace(c, v, source) =>
      case Merge(u) => MergeTracks(a, w.s, effs, u);
    }
  }

  lemma LoadedTracks(a: Agent, c: Config, v: string)
    ensures Tracks(a, ApplyVersioned(Fresh(a), c, v).(source := Persisted, persisted := v), [Replace(c, v, Persisted)])
  {
  }

  lemma FreshTracks(a: Agent, reason: Reason)
    ensures Tracks(a, Fresh(a).(lastErr := reason), [Keep])
  {
  }

  lemma StartTracks(a: Agent, disk: Disk, env: LoadEnv)
    ensures Tracks(a, Start(a, Visible(disk), env), [InitialEffect(a, disk, env)])
  {
    match InitialEffect(a, disk, env) {
      case Replace(c, v, _) => LoadedTracks(a, c, v);
      case _ => FreshTracks(a, Start(a, Visible(disk), env).lastErr);
    }
  }

  lemma {:induction false} RunTracks(a: Agent, disk: Disk, env: LoadEnv, events: seq<Event>)
    requires Run(a, disk, env, events).alive
    ensures Tracks(a, Run(a, disk, env, events).s, Effects(a, disk, env, events))
  {
    if events == [] {
      StartTracks(a, disk, env);
    } else {
      var earlier := events[..|events| - 1];
      RunTracks(a, disk, env, earlier);
      StepTracks(a, Run(a, disk, env, earlier), events[|events| - 1], Effects(a, disk, env, earlier));
    }
  }

  /**
   * For every sequence of polls and disk failures from any state file: the snapshot and the
   * reported version, cap and source are those of the latest writer since the last two
   * adjacent 404s, and the local ones when there is none.
   */
  lemma SnapshotIsHistory(a: Agent, disk: Disk, env: LoadEnv, events: seq<Event>)
    requires Run(a, disk, env, events).alive
    ensures var w, effs := Run(a, disk, env, events), Effects(a, disk, env, events);
            && SnapshotOf(a, w.s) == SnapshotSpec(a, effs)
            && StatusOf(w.s).(error := NoError) == StatusSpec(a, effs)
  {
    RunTracks(a, disk, env, events);
    var w, effs := Run(a, disk, env, events), Effects(a, disk, env, events);
    if !w.s.haveRemote { AllLocal(a, effs); }
  }

  /** The local values are in force, reported as the file's or as the defaults. */
  ghost predicate LocalInForce(a: Agent, s: State) {
    && SnapshotOf(a, s) == Snapshot(a.base.interval, a.base.scanners, a.base.paths, a.base.modelSizeMB)
    && StatusOf(s).version == "" && StatusOf(s).maxReport == 0
    && StatusOf(s).source == if a.base.fileLoaded then LocalFile else Defaults
  }

  predicate Answers404(e: Event) { e.fetch.status == 404 && !e.fetch.tooLarge && !e.fetch.err }

  /** Two adjacent 404s put the local values back in force, whatever came before and whatever the disk does. */
  lemma TwoNotFoundsRevert(a: Agent, disk: Disk, env: LoadEnv, events: seq<Event>)
    requires |events| >= 2 && Answers404(events[|events| - 1]) && Answers404(events[|events| - 2])
    requires Run(a, disk, env, events).alive
    ensures LocalInForce(a, Run(a, disk, env, events).s)
  {
    var front := events[..|events| - 1];
    assert front[|front| - 1] == events[|events| - 2];
    SnapshotIsHistory(a, disk, env, events);
  }

  /** And so they are as long as no response was ever accepted and no file loaded. */
  lemma {:induction false} NeverRemoteIsLocal(a: Agent, disk: Disk, env: LoadEnv, events: seq<Event>)
    requires Run(a, disk, env, events).alive
    requires forall e | e in Effects(a, disk, env, events) :: e.Keep? || e.NotFound?
    ensures LocalInForce(a, Run(a, disk, env, events).s)
  {
    var effs := Effects(a, disk, env, events);
    NothingPicked(effs);
    SnapshotIsHistory(a, disk, env, events);
    AllLocal(a, effs);
    RestLocal(a, effs);
  }

  lemma {:induction false} NothingPicked(effs: seq<Effect>)
    requires forall e | e in effs :: e.Keep? || e.NotFound?
    ensures !Latest(effs, PickRemote, false)
  {
    if effs != [] && !EndsInTwoNotFounds(effs) {
      assert effs[|effs| - 1] in effs;
      NothingPicked(effs[..|effs| - 1]);
    }
  }
}
