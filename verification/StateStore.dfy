/**
 * The last-known-good state file (state.go) on a disk that can lose what was not flushed. The
 * operating system's answers (trust checks, failures, the moment of a crash) are parameters; the
 * JSON codec is a pair of functions.
 */
module StateStore {
  import opened Base
  import opened RemoteConfig

  datatype Identity = Identity(agentID: string, urlHash: string)

  datatype StateFile =
    StateFile(format: int, agentID: string, urlHash: string, version: string, fetchedAt: int, config: Config)

  datatype Codec = Codec(sha: Digest, encode: StateFile -> seq<Byte>, decode: seq<Byte> -> Option<StateFile>)

  /** What JSON gives the store: a file written whole decodes to what was written. */
  ghost predicate RoundTrips(k: Codec) {
    forall st :: k.decode(k.encode(st)) == Some(st)
  }

  const STATE_FORMAT := 1

  datatype Trust = Trusted | Missing | Untrusted

  /** The operating system's answers during one `Load`. */
  datatype LoadEnv = LoadEnv(chain: Trust, file: Trust, canOpen: bool, canRead: bool)

  const HEALTHY := LoadEnv(Trusted, Trusted, true, true)

  datatype LoadResult = Loaded(config: Config, version: string) | Ignored(reason: Reason) | Absent

  /** `Store.Load`: trust, size, decode, hash, bounds, identity, in that order. */
  function Load(file: Option<seq<Byte>>, id: Identity, env: LoadEnv, k: Codec): LoadResult {
    if env.chain.Missing? then Absent
    else if env.chain.Untrusted? then Ignored(StateUntrusted)
    else if env.file.Missing? || file.None? then Absent
    else if env.file.Untrusted? then Ignored(StateUntrusted)
    else if !env.canOpen || !env.canRead || |file.value| > MAX_RESPONSE_BYTES then Ignored(StateCorrupt)
    else
      match k.decode(file.value)
      case None => Ignored(StateCorrupt)
      case Some(st) =>
        if st.format != STATE_FORMAT || Version(st.config, k.sha) != st.version then Ignored(StateCorrupt)
        else if Validate(st.config) != NoError then Ignored(StateInvalid)
        else if st.agentID != id.agentID || st.urlHash != id.urlHash then Ignored(StateStale)
        else Loaded(st.config, st.version)
  }

  function Encoded(id: Identity, c: Config, version: string, now: int, k: Codec): seq<Byte> {
    k.encode(StateFile(STATE_FORMAT, id.agentID, id.urlHash, version, now, c))
  }

  // ---------------------------------------------------------------- the disk

  /** A file's bytes as a reader sees them, and whether they have been flushed to the medium. */
  datatype Data = Data(bytes: seq<Byte>, synced: bool)

  /**
   * The directory entry remote-config.json, and the entries it replaced since the directory itself
   * last reached the medium. A killed process leaves the entry; a power loss may bring back any of
   * the earlier ones, and may cut an unflushed file short.
   */
  datatype Disk = Disk(entry: Option<Data>, earlier: seq<Option<Data>>)

  function Content(e: Option<Data>): Option<seq<Byte>> { if e.Some? then Some(e.value.bytes) else None }

  /** The state file as the agent reads it. */
  function Visible(d: Disk): Option<seq<Byte>> { Content(d.entry) }

  /** Rename or remove: a new entry, the old one still on the medium. */
  function Relinked(d: Disk, e: Option<Data>): Disk { Disk(e, d.earlier + [d.entry]) }

  /** The system wrote the directory back by itself. */
  function Flushed(d: Disk): Disk { Disk(d.entry, []) }

  /** A medium that holds just this file. */
  function Booted(file: Option<seq<Byte>>): Disk { Disk(if file.Some? then Some(Data(file.value, true)) else None, []) }

  /** What is left of one entry: all of a flushed file, any part of another. */
  predicate Remains(e: Option<Data>, file: Option<seq<Byte>>) {
    match e
    case None => file.None?
    case Some(d) => file.Some? && file.value <= d.bytes && (d.synced ==> file.value == d.bytes)
  }

  /** A power loss now may leave `file`. */
  predicate MayRemain(d: Disk, file: Option<seq<Byte>>) {
    Remains(d.entry, file) || exists i | 0 <= i < |d.earlier| :: Remains(d.earlier[i], file)
  }

  predicate Whole(e: Option<Data>) { e.Some? ==> e.value.synced }

  predicate AllWhole(d: Disk) { Whole(d.entry) && forall i | 0 <= i < |d.earlier| :: Whole(d.earlier[i]) }

  /** The entry's file, or an earlier one: nothing else is on a disk of flushed files. */
  predicate Linked(d: Disk, file: Option<seq<Byte>>) {
    file == Visible(d) || exists i | 0 <= i < |d.earlier| :: file == Content(d.earlier[i])
  }

  lemma WholeFilesRemainWhole(d: Disk, file: Option<seq<Byte>>)
    requires AllWhole(d)
    ensures MayRemain(d, file) <==> Linked(d, file)
  {
    if i :| 0 <= i < |d.earlier| && Remains(d.earlier[i], file) { assert file == Content(d.earlier[i]); }
    if i :| 0 <= i < |d.earlier| && file == Content(d.earlier[i]) { assert Remains(d.earlier[i], file); }
  }

  /** A rename adds one file to what a power loss may leave. */
  lemma RelinkedMayRemain(d: Disk, e: Option<Data>, file: Option<seq<Byte>>)
    ensures MayRemain(Relinked(d, e), file) <==> Remains(e, file) || MayRemain(d, file)
  {
    var n := Relinked(d, e);
    if MayRemain(d, file) {
      if Remains(d.entry, file) {
        assert Remains(n.earlier[|d.earlier|], file);
      } else {
        var i :| 0 <= i < |d.earlier| && Remains(d.earlier[i], file);
        assert Remains(n.earlier[i], file);
      }
    }
    if i :| 0 <= i < |n.earlier| && Remains(n.earlier[i], file) { assert i < |d.earlier| || i == |d.earlier|; }
  }

  // ---------------------------------------------------------------- saving and deleting

  /** The steps of `Save`; a failed or interrupted write may have written any prefix. */
  datatype SaveStep = SecureDir | CreateTemp | RestrictTemp | Write(written: nat) | Sync | Close | Rename

  datatype Fault = NoFault | Fails(at: SaveStep) | Crashes(before: SaveStep) | CrashesAfterRename

  datatype SaveResult = Saved | SaveFailed | Crashed

  datatype DeleteEnv = DeleteEnv(chain: Trust, removeFails: bool)

  /** `Save` as one step: nothing, or a rename to the whole flushed file. */
  function SaveEffect(d: Disk, raw: seq<Byte>, fault: Fault): (Disk, SaveResult) {
    var renamed := Relinked(d, Some(Data(raw, true)));
    match fault
    case NoFault => (renamed, Saved)
    case Fails(_) => (d, SaveFailed)
    case Crashes(_) => (d, Crashed)
    case CrashesAfterRename => (renamed, Crashed)
  }

  /** `Delete` as one step, and whether it reports success. */
  function DeleteEffect(d: Disk, env: DeleteEnv): (Disk, bool) {
    if env.chain.Trusted? && d.entry.Some? && !env.removeFails then (Relinked(d, None), true)
    else (d, env.chain.Missing? || (env.chain.Trusted? && d.entry.None?))
  }

  class Store {
    const k: Codec
    var disk: Disk
    var temps: seq<Data>  // temporary files a crash left behind

    constructor (k: Codec, disk: Disk)
      ensures this.k == k && this.disk == disk && temps == []
    {
      this.k, this.disk, temps := k, disk, [];
    }

    /** `Save`, step by step: temporary file, write, sync, close, rename. */
    method Save(id: Identity, c: Config, version: string, now: int, fault: Fault) returns (r: SaveResult)
      modifies this
      ensures (disk, r) == SaveEffect(old(disk), Encoded(id, c, version, now, k), fault)
      ensures r != Crashed ==> temps == old(temps)
      ensures old(temps) <= temps && |temps| <= |old(temps)| + 1
      ensures |temps| > |old(temps)| ==> temps[|old(temps)|].bytes <= Encoded(id, c, version, now, k)
    {
      if fault == Fails(SecureDir) { return SaveFailed; }
      if fault == Crashes(SecureDir) { return Crashed; }
      var raw := Encoded(id, c, version, now, k);
      if fault == Fails(CreateTemp) { return SaveFailed; }
      if fault == Crashes(CreateTemp) { return Crashed; }
      var tmp := Data([], false);  // removed on every return but a crash's
      if fault == Fails(RestrictTemp) { return SaveFailed; }
      if fault == Crashes(RestrictTemp) { temps := temps + [tmp]; return Crashed; }
      if fault.Fails? && fault.at.Write? { return SaveFailed; }
      if fault.Crashes? && fault.before.Write? {
        tmp := Data(raw[..if fault.before.written <= |raw| then fault.before.written else |raw|], false);
        temps := temps + [tmp];
        return Crashed;
      }
      tmp := Data(raw, false);
      if fault == Fails(Sync) { return SaveFailed; }
      if fault == Crashes(Sync) { temps := temps + [tmp]; return Crashed; }
      tmp := tmp.(synced := true);
      if fault == Fails(Close) { return SaveFailed; }
      if fault == Crashes(Close) { temps := temps + [tmp]; return Crashed; }
      if fault == Fails(Rename) { return SaveFailed; }
      if fault == Crashes(Rename) { temps := temps + [tmp]; return Crashed; }
      disk := Relinked(disk, Some(tmp));
      return if fault == CrashesAfterRename then Crashed else Saved;
    }

    /**
     * Success means there is no state file left, or no directory that could hold one; a failure
     * leaves the disk alone, and an untrusted directory is never followed.
     */
    method Delete(env: DeleteEnv) returns (ok: bool)
      modifies this`disk
      ensures ok && !env.chain.Missing? ==> Visible(disk) == None
      ensures !ok ==> disk == old(disk) && (env.chain.Untrusted? || (Visible(disk).Some? && env.removeFails))
      ensures !env.chain.Trusted? ==> disk == old(disk) && ok == env.chain.Missing?
      ensures disk == old(disk) || disk == Relinked(old(disk), None)
      ensures (disk, ok) == DeleteEffect(old(disk), env)
    {
      match env.chain {
        case Missing => return true;
        case Untrusted => return false;
        case Trusted =>
          if disk.entry.None? { return true; }
          if env.removeFails { return false; }
          disk := Relinked(disk, None);
          return true;
      }
    }
  }

  /**
   * A power loss at any point of a save, or after it, leaves a file that was there before or the
   * whole new one, and the new one only once the rename was made.
   */
  lemma SaveNeverTears(d: Disk, raw: seq<Byte>, fault: Fault, file: Option<seq<Byte>>)
    requires AllWhole(d)
    ensures MayRemain(SaveEffect(d, raw, fault).0, file) <==>
            Linked(d, file) || ((fault.NoFault? || fault.CrashesAfterRename?) && file == Some(raw))
  {
    WholeFilesRemainWhole(d, file);
    RelinkedMayRemain(d, Some(Data(raw, true)), file);
  }

  /** Renaming an unflushed file instead could leave any prefix of it as the state file. */
  lemma UnsyncedMayTear(d: Disk, raw: seq<Byte>, n: nat)
    requires n <= |raw|
    ensures MayRemain(Relinked(d, Some(Data(raw, false))), Some(raw[..n]))
  {
  }

  /** A JSON object cut short never decodes. */
  ghost predicate NeedsItsEnd(k: Codec) {
    forall st, n: nat | n < |k.encode(st)| :: k.decode(k.encode(st)[..n]) == None
  }

  /** `Load` answers a torn file as corrupt, whatever is missing. */
  lemma TornFileIsCorrupt(st: StateFile, n: nat, id: Identity, k: Codec)
    requires NeedsItsEnd(k) && n < |k.encode(st)|
    ensures Load(Some(k.encode(st)[..n]), id, HEALTHY, k) == Ignored(StateCorrupt)
  {
  }

  /**
   * `Save` does not flush the directory: after it has returned, a power loss may still undo it.
   * The saved file is certain to remain exactly when no other file is linked from before, as once
   * the system has written the directory back.
   */
  lemma SavedIsCertainIff(d: Disk, raw: seq<Byte>)
    requires AllWhole(d)
    ensures var n := SaveEffect(d, raw, NoFault).0;
            (forall f | MayRemain(n, f) :: f == Some(raw)) <==> forall f | Linked(d, f) :: f == Some(raw)
    ensures forall f | MayRemain(Flushed(SaveEffect(d, raw, NoFault).0), f) :: f == Some(raw)
  {
    var n := SaveEffect(d, raw, NoFault).0;
    forall f ensures MayRemain(n, f) <==> Linked(d, f) || f == Some(raw) { SaveNeverTears(d, raw, NoFault, f); }
  }

  /** A readable state file of `id` holding `version`. */
  ghost predicate Holds(file: Option<seq<Byte>>, id: Identity, version: string, k: Codec) {
    file.Some? && k.decode(file.value).Some? &&
    var st := k.decode(file.value).value;
    && st.format == STATE_FORMAT && st.agentID == id.agentID && st.urlHash == id.urlHash
    && st.version == version == Version(st.config, k.sha) && Validate(st.config) == NoError
  }

  /** A file that decodes to another identity's state. */
  ghost predicate Foreign(file: Option<seq<Byte>>, id: Identity, k: Codec) {
    file.Some? && k.decode(file.value).Some? &&
    var st := k.decode(file.value).value;
    st.agentID != id.agentID || st.urlHash != id.urlHash
  }

  /**
   * Load undoes Save for a valid config exactly when the encoding is within the size cap;
   * `Save` does not check the cap, and a longer file is ignored as corrupt.
   */
  lemma LoadUndoesSave(id: Identity, c: Config, now: int, k: Codec)
    requires RoundTrips(k) && Validate(c) == NoError
    ensures var v := Version(c, k.sha);
            var raw := Encoded(id, c, v, now, k);
            && Holds(Some(raw), id, v, k)
            && Load(Some(raw), id, HEALTHY, k) ==
               if |raw| <= MAX_RESPONSE_BYTES then Loaded(c, v) else Ignored(StateCorrupt)
  {
    var v := Version(c, k.sha);
    var st := StateFile(STATE_FORMAT, id.agentID, id.urlHash, v, now, c);
    assert k.decode(k.encode(st)) == Some(st);
  }

  /** A file is there, and neither it nor the directories above it can be written by others. */
  predicate Reachable(file: Option<seq<Byte>>, env: LoadEnv) {
    env.chain == Trusted && env.file == Trusted && file.Some?
  }

  /** It can be read, is within the cap, and decodes to a state of this format that carries its own hash. */
  ghost predicate Intact(file: Option<seq<Byte>>, env: LoadEnv, k: Codec) {
    && Reachable(file, env) && env.canOpen && env.canRead && |file.value| <= 262144 && k.decode(file.value).Some?
    && var st := k.decode(file.value).value;
    st.format == 1 && st.version == Version(st.config, k.sha)
  }

  /** `Load` accepts exactly the trusted, readable files of this identity, whatever wrote them. */
  lemma LoadedIff(file: Option<seq<Byte>>, id: Identity, env: LoadEnv, k: Codec, c: Config, v: string)
    ensures Load(file, id, env, k) == Loaded(c, v) <==>
            Intact(file, env, k) && Holds(file, id, v, k) && k.decode(file.value).value.config == c
  {
  }

  /** And gives each reason exactly when that is what stands first in its way. */
  lemma IgnoredIff(file: Option<seq<Byte>>, id: Identity, env: LoadEnv, k: Codec)
    ensures var r := Load(file, id, env, k);
            && (r == Absent <==>
                  env.chain == Missing || (env.chain == Trusted && (env.file == Missing || file == None)))
            && (r == Ignored(StateUntrusted) <==>
                  env.chain == Untrusted || (env.chain == Trusted && env.file == Untrusted && file.Some?))
            && (r == Ignored(StateCorrupt) <==> Reachable(file, env) && !Intact(file, env, k))
            && (r == Ignored(StateInvalid) <==>
                  Intact(file, env, k) && Validate(k.decode(file.value).value.config) != NoError)
            && (r == Ignored(StateStale) <==>
                  && Intact(file, env, k) && Validate(k.decode(file.value).value.config) == NoError
                  && Foreign(file, id, k))
  {
  }
}
