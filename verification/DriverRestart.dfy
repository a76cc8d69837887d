/** Stopping the driver protocol at any step and starting again: what `init` recovers from the
    directory, and that it recovers a state from which everything holds again. */
module DriverRestart {
  import opened Wrappers
  import opened FsUtil
  import opened DriverCodec
  import opened DriverScan
  import opened DriverProtocol
  import opened DriverInvariants
  import opened DriverSafety

  /** As written the parser reads back only names that hold an underscore. */
  predicate Readable(codec: Codec, name: string) {
    codec.Repaired? || HasUnderscore(name)
  }

  lemma ParseIff(codec: Codec, file: string)
    requires EndsWith(file, JAR_FILE_SUFFIX)
    ensures Parse(codec, file) == match Parse(Repaired, file)
      case Some(jar) => if Readable(codec, jar.name) then Some(jar) else None
      case None => None
  {
  }

  /** How a scan sees a path inside the directory. */
  lemma KindOfPath(codec: Codec, dir: string, path: string)
    requires IsChild(dir, path)
    ensures ItemAt(codec, dir, path).kind.Driver? <==>
      PathJar(dir, path).Some? && Readable(codec, PathJar(dir, path).value.name)
    ensures ItemAt(codec, dir, path).kind.Driver? ==>
      ItemAt(codec, dir, path).kind == Driver(PathJar(dir, path).value)
  {
    var base := BaseOf(dir, path);
    assert path == PathOf(dir, base);
    PathJarOfBase(dir, base);
    if EndsWith(base, TMP_FILE_SUFFIX) {
      SuffixesDiffer(base);
    } else if EndsWith(base, JAR_FILE_SUFFIX) {
      ParseIff(codec, base);
    }
  }

  /** Entry `e`'s file is on disk, listed, and readable for the parser. */
  predicate Recoverable(codec: Codec, cfg: Config, s: State, e: nat) {
    && e < |s.entries| && Occupies(cfg, s.entries[e]) && s.entries[e].location in s.dir
    && IsChild(cfg.dir, s.entries[e].location) && Readable(codec, s.entries[e].name)
  }

  /** The latest stamp among the readable drivers of its name on disk. */
  ghost predicate IsNewestOnDisk(codec: Codec, cfg: Config, s: State, e: nat) {
    && Recoverable(codec, cfg, s, e)
    && (forall f | 0 <= f < |s.entries| && Recoverable(codec, cfg, s, f) && s.entries[f].name == s.entries[e].name ::
          s.entries[f].ts <= s.entries[e].ts)
  }

  /** Every driver a scan finds is some entry's file. */
  lemma DriverItemIsEntry(codec: Codec, cfg: Config, s: State, items: seq<Item>, k: nat) returns (e: nat)
    requires JarInv(cfg, s) && NameInv(cfg, s) && Lists(codec, cfg.dir, items, s.dir.Keys)
    requires k < |items| && items[k].kind.Driver?
    ensures Recoverable(codec, cfg, s, e)
    ensures items[k] == Item(s.entries[e].location, Driver(JarOf(s.entries[e])))
  {
    var p := items[k].path;
    KindOfPath(codec, cfg.dir, p);
    e :| IsAt(cfg, s, e, p);
  }

  /** And every recoverable entry is found. */
  lemma EntryIsDriverItem(codec: Codec, cfg: Config, s: State, items: seq<Item>, e: nat) returns (k: nat)
    requires NameInv(cfg, s) && Lists(codec, cfg.dir, items, s.dir.Keys)
    requires Recoverable(codec, cfg, s, e)
    ensures k < |items| && items[k] == Item(s.entries[e].location, Driver(JarOf(s.entries[e])))
  {
    var p := s.entries[e].location;
    assert p in s.dir.Keys;
    KindOfPath(codec, cfg.dir, p);
    k :| 0 <= k < |items| && items[k] == ItemAt(codec, cfg.dir, p);
  }

  /** The map entry is the newest driver of its name on disk, at its own location. */
  ghost predicate RecoversAs(codec: Codec, cfg: Config, s: State, view: EntryView, name: string, e: nat) {
    && IsNewestOnDisk(codec, cfg, s, e) && s.entries[e].name == name
    && view == Loaded(JarOf(s.entries[e]), s.entries[e].location)
  }

  lemma RecoveredIsNewest(codec: Codec, cfg: Config, s: State, items: seq<Item>, name: string) returns (e: nat)
    requires JarInv(cfg, s) && NameInv(cfg, s) && Lists(codec, cfg.dir, items, s.dir.Keys)
    requires name in ScanAll(FRESH, items).live
    ensures RecoversAs(codec, cfg, s, ScanAll(FRESH, items).live[name], name, e)
  {
    var k := LiveIsNewest(items, name);
    e := DriverItemIsEntry(codec, cfg, s, items, k);
    forall f | 0 <= f < |s.entries| && Recoverable(codec, cfg, s, f) && s.entries[f].name == name
      ensures s.entries[f].ts <= s.entries[e].ts
    {
      var j := EntryIsDriverItem(codec, cfg, s, items, f);
      assert items[j].IsDriverOf(name);
    }
  }

  lemma RecoverableIsLive(codec: Codec, cfg: Config, s: State, items: seq<Item>, e: nat)
    requires NameInv(cfg, s) && Lists(codec, cfg.dir, items, s.dir.Keys) && Recoverable(codec, cfg, s, e)
    ensures s.entries[e].name in ScanAll(FRESH, items).live
  {
    var k := EntryIsDriverItem(codec, cfg, s, items, e);
    DriverIsLive(FRESH, items, k);
  }

  ghost predicate HasRecoverable(codec: Codec, cfg: Config, s: State, name: string) {
    exists e: nat :: Recoverable(codec, cfg, s, e) && s.entries[e].name == name
  }

  /** Restart recovery. After any run of plain requests, disciplined or not, stopped at any step, a fresh
      `init` over the directory maps exactly the names that have a readable driver on disk, each to a
      driver there with the latest stamp, at the same location. */
  lemma RestartRecovers(codec: Codec, cfg: Config, ss: seq<State>, acts: seq<Action>, i: nat,
                        items: seq<Item>, name: string)
    requires PlainRun(cfg, ss, acts) && Initial(cfg, ss[0]) && i < |ss|
    requires Lists(codec, cfg.dir, items, ss[i].dir.Keys)
    ensures var live := ScanAll(FRESH, items).live;
      && (name in live <==> HasRecoverable(codec, cfg, ss[i], name))
      && (name in live ==> exists e: nat :: RecoversAs(codec, cfg, ss[i], live[name], name, e))
  {
    RunJars(cfg, ss, acts, i);
    RunNames(cfg, ss, acts, i);
    if name in ScanAll(FRESH, items).live {
      var e := RecoveredIsNewest(codec, cfg, ss[i], items, name);
    }
    if HasRecoverable(codec, cfg, ss[i], name) {
      var e: nat :| Recoverable(codec, cfg, ss[i], e) && ss[i].entries[e].name == name;
      RecoverableIsLive(codec, cfg, ss[i], items, e);
    }
  }

  // ----- With a clock that only goes forward

  /** A clock reading that creates an entry is later than every earlier one for its name. */
  predicate RisingClock(s: State, a: Action)
    requires Wf(s)
  {
    a.Lookup? && Creates(s, a.name, a.checksum) ==>
      forall e | 0 <= e < |s.entries| && s.entries[e].name == a.name :: s.entries[e].ts < a.now
  }

  ghost predicate RisingRun(cfg: Config, ss: seq<State>, acts: seq<Action>) {
    && Run(cfg, ss, acts)
    && (forall i {:trigger acts[i]} | 0 <= i < |acts| :: RisingClock(ss[i], acts[i]))
  }

  /** The entries of a name were created in the order of their stamps. */
  ghost predicate StampsRise(s: State) {
    forall i, j | 0 <= i < j < |s.entries| && s.entries[i].name == s.entries[j].name ::
      s.entries[i].ts < s.entries[j].ts
  }

  /** Such a clock never asks for a location that is taken. */
  lemma RisingClockIsFree(cfg: Config, s: State, a: Action)
    requires Wf(s) && NameInv(cfg, s) && RisingClock(s, a) && PlainRequest(s, a)
    ensures CreatesApart(cfg, s, a)
  {
    if a.Lookup? && Creates(s, a.name, a.checksum) {
      LocationAgrees(cfg.dir, Jar(a.name, a.checksum, a.now));
    }
  }

  /** So with it the entries of every plain run are created apart. */
  lemma RisingRunIsApart(cfg: Config, ss: seq<State>, acts: seq<Action>)
    requires PlainRun(cfg, ss, acts) && RisingRun(cfg, ss, acts) && Initial(cfg, ss[0])
    ensures ApartRun(cfg, ss, acts)
  {
    forall i {:trigger acts[i]} | 0 <= i < |acts|
      ensures CreatesApart(cfg, ss[i], acts[i])
    {
      RunNames(cfg, ss, acts, i);
      RisingClockIsFree(cfg, ss[i], acts[i]);
    }
  }

  lemma {:induction false} RunStampsRise(cfg: Config, ss: seq<State>, acts: seq<Action>, i: nat)
    requires RisingRun(cfg, ss, acts) && StampsRise(ss[0]) && i < |ss|
    ensures StampsRise(ss[i])
  {
    if i > 0 {
      RunStampsRise(cfg, ss, acts, i - 1);
      KeepsStampsRising(cfg, ss, acts, i - 1);
    }
  }

  lemma KeepsStampsRising(cfg: Config, ss: seq<State>, acts: seq<Action>, k: nat)
    requires RisingRun(cfg, ss, acts) && k < |acts| && StampsRise(ss[k])
    ensures StampsRise(ss[k + 1])
  {
    StepGrows(cfg, ss[k], acts[k]);
    GrownStampsRise(ss[k], ss[k + 1], Added(cfg, ss[k], acts[k]));
  }

  lemma GrownStampsRise(s: State, s': State, added: seq<Entry>)
    requires StampsRise(s) && Grows(s, s', added)
    requires added != [] ==>
      forall e | 0 <= e < |s.entries| && s.entries[e].name == added[0].name :: s.entries[e].ts < added[0].ts
    ensures StampsRise(s')
  {
    forall i, j | 0 <= i < j < |s'.entries| && s'.entries[i].name == s'.entries[j].name
      ensures s'.entries[i].ts < s'.entries[j].ts
    {
      assert EntryRises(s.entries[i], s'.entries[i]);
      assert j < |s.entries| ==> EntryRises(s.entries[j], s'.entries[j]);
    }
  }

  /** The download of entry `e` completed and its file was not removed since; and the parser can read
      its name. */
  predicate Restorable(codec: Codec, cfg: Config, s: State, e: nat) {
    && e < |s.entries| && s.entries[e].completed && Occupies(cfg, s.entries[e])
    && IsChild(cfg.dir, s.entries[e].location) && Readable(codec, s.entries[e].name)
  }

  lemma RestorableIffRecoverable(codec: Codec, cfg: Config, s: State, e: nat)
    requires DirInv(cfg, s)
    ensures Restorable(codec, cfg, s, e) <==> Recoverable(codec, cfg, s, e)
  {
  }

  /** With a clock that only goes forward, whatever is shared or lost on the way: a name is recovered
      exactly when some download for it completed and is still there, and then as the newest of them,
      the last to be created. */
  lemma RestartRecoversLatest(codec: Codec, cfg: Config, ss: seq<State>, acts: seq<Action>, i: nat,
                              items: seq<Item>, name: string)
    requires PlainRun(cfg, ss, acts) && RisingRun(cfg, ss, acts)
    requires Initial(cfg, ss[0]) && StampsRise(ss[0]) && i < |ss|
    requires Lists(codec, cfg.dir, items, ss[i].dir.Keys)
    ensures var s, live := ss[i], ScanAll(FRESH, items).live;
      && (name in live <==> exists e: nat :: Restorable(codec, cfg, s, e) && s.entries[e].name == name)
      && (name in live ==> exists e: nat :: RecoversAs(codec, cfg, s, live[name], name, e) && IsLast(codec, cfg, s, e))
  {
    RisingRunIsApart(cfg, ss, acts);
    RunApart(cfg, ss, acts, i);
    RunStampsRise(cfg, ss, acts, i);
    RestartRecovers(codec, cfg, ss, acts, i, items, name);
    forall e: nat
      ensures Restorable(codec, cfg, ss[i], e) <==> Recoverable(codec, cfg, ss[i], e)
    {
      RestorableIffRecoverable(codec, cfg, ss[i], e);
    }
    if name in ScanAll(FRESH, items).live {
      var e: nat :| RecoversAs(codec, cfg, ss[i], ScanAll(FRESH, items).live[name], name, e);
      assert IsLast(codec, cfg, ss[i], e);
    }
  }

  /** No driver of that name created later completed its download and is still there. */
  ghost predicate IsLast(codec: Codec, cfg: Config, s: State, e: nat) {
    && Restorable(codec, cfg, s, e)
    && forall f: nat | e < f < |s.entries| && s.entries[f].name == s.entries[e].name :: !Restorable(codec, cfg, s, f)
  }

  // ----- What is on disk

  /** Which drivers are on disk: those whose download completed (and that were not removed since). */
  lemma OnDiskIffCompleted(cfg: Config, ss: seq<State>, acts: seq<Action>, i: nat, e: nat)
    requires ApartRun(cfg, ss, acts) && Initial(cfg, ss[0]) && i < |ss|
    requires e < |ss[i].entries| && Occupies(cfg, ss[i].entries[e])
    ensures ss[i].entries[e].location in ss[i].dir <==> ss[i].entries[e].completed
  {
    RunApart(cfg, ss, acts, i);
  }

  /** Seen from the directory: a driver file is there exactly when some such entry is. */
  lemma DriverFilesAreCompleted(cfg: Config, ss: seq<State>, acts: seq<Action>, i: nat, p: string)
    requires ApartRun(cfg, ss, acts) && Initial(cfg, ss[0]) && i < |ss|
    requires PathJar(cfg.dir, p).Some?
    ensures p in ss[i].dir <==> exists e: nat :: IsAt(cfg, ss[i], e, p) && ss[i].entries[e].completed
  {
    RunApart(cfg, ss, acts, i);
    RunJars(cfg, ss, acts, i);
    if p in ss[i].dir {
      var e: nat :| IsAt(cfg, ss[i], e, p);
      assert ss[i].entries[e].completed;
    }
  }

  /** What was recovered holds good bytes exactly when its close lost nothing that matters, unless the
      run stopped between the rename of that file and the close of its stream. */
  lemma RecoveredIsGood(cfg: Config, ss: seq<State>, acts: seq<Action>, i: nat, e: nat)
    requires DisciplinedRun(cfg, ss, acts) && Initial(cfg, ss[0]) && i < |ss| && e < |ss[i].entries|
    requires Owner(cfg, ss[i], e) && ss[i].entries[e].completed && !InFlight(ss[i], e)
    ensures HasFile(cfg, ss[i], e) <==> Sound(cfg, ss[i], e)
  {
    RunInv(cfg, ss, acts, i);
    assert FileOk(cfg, ss[i], e);
  }

  /** In that window the bytes on disk are what the stream has flushed so far, and they are the
      verified ones exactly when that is everything. */
  lemma InFlightBytes(cfg: Config, ss: seq<State>, acts: seq<Action>, i: nat, e: nat)
    requires DisciplinedRun(cfg, ss, acts) && Initial(cfg, ss[0]) && i < |ss| && e < |ss[i].entries|
    requires InFlight(ss[i], e) && Owner(cfg, ss[i], e)
    ensures var s := ss[i]; var pc := s.threads[s.entries[e].owner.value];
      && s.entries[e].location in Files(s)
      && pc.flushed <= |pc.sent| && Files(s)[s.entries[e].location] == pc.sent[..pc.flushed]
      && (Files(s)[s.entries[e].location] == pc.sent <==> pc.flushed == |pc.sent|)
  {
    RunInv(cfg, ss, acts, i);
    assert OwnerOk(cfg, ss[i], e);
    assert StreamOk(cfg, ss[i], ss[i].threads[ss[i].entries[e].owner.value]);
  }

  /** The temporary file of any download that was under way is cleared, whatever codec reads. */
  lemma RestartClearsTemporaries(codec: Codec, cfg: Config, items: seq<Item>, paths: set<string>, entry: Entry)
    requires Lists(codec, cfg.dir, items, paths)
    requires TmpOf(cfg, entry) in paths && IsChild(cfg.dir, TmpOf(cfg, entry))
    ensures TmpOf(cfg, entry) in ScanAll(FRESH, items).Removed()
  {
    var p := TmpOf(cfg, entry);
    TmpPathIsNoJar(cfg.dir, entry.name, entry.checksum);
    assert BaseOf(cfg.dir, p) == entry.name + "_" + entry.checksum + TMP_FILE_SUFFIX;
    var k :| 0 <= k < |items| && items[k] == ItemAt(codec, cfg.dir, p);
    RemovedIffDoomed(items, k);
  }

  /** No other driver of that name on disk has the same stamp. */
  ghost predicate Unrivalled(codec: Codec, cfg: Config, s: State, e: nat)
    requires e < |s.entries|
  {
    forall f | 0 <= f < |s.entries| && f != e && Recoverable(codec, cfg, s, f)
        && s.entries[f].name == s.entries[e].name ::
      s.entries[f].ts != s.entries[e].ts
  }

  /** With the parser as written, a completed download whose name holds no underscore is deleted by
      the next start-up instead of being recovered; the others are deleted only for one that is as
      new, the order of the listing deciding between equals. */
  lemma UnreadableIsDeleted(cfg: Config, ss: seq<State>, acts: seq<Action>, i: nat, items: seq<Item>, e: nat)
    requires ApartRun(cfg, ss, acts) && PlainRun(cfg, ss, acts) && Initial(cfg, ss[0]) && i < |ss|
    requires Lists(AsWritten, cfg.dir, items, ss[i].dir.Keys)
    requires Recoverable(Repaired, cfg, ss[i], e)
    ensures var removed := ss[i].entries[e].location in ScanAll(FRESH, items).Removed();
      var deserved := !HasUnderscore(ss[i].entries[e].name) || !IsNewestOnDisk(AsWritten, cfg, ss[i], e);
      && (deserved ==> removed)
      && (removed && Unrivalled(AsWritten, cfg, ss[i], e) ==> deserved)
  {
    RunApart(cfg, ss, acts, i);
    RunJars(cfg, ss, acts, i);
    RunNames(cfg, ss, acts, i);
    var p := ss[i].entries[e].location;
    assert p in ss[i].dir.Keys;
    var k :| 0 <= k < |items| && items[k] == ItemAt(AsWritten, cfg.dir, p);
    RemovedIffDoomed(items, k);
    KindOfPath(AsWritten, cfg.dir, p);
    if HasUnderscore(ss[i].entries[e].name) {
      ReadableIsKept(cfg, ss[i], items, e);
    } else {
      UnreadableKind(cfg.dir, p);
    }
  }

  /** A jar the parser as written does not read is unparseable for the scan, not ignored. */
  lemma UnreadableKind(dir: string, p: string)
    requires IsChild(dir, p) && PathJar(dir, p).Some? && !HasUnderscore(PathJar(dir, p).value.name)
    ensures ItemAt(AsWritten, dir, p).kind == Unparseable
  {
    KindOfPath(AsWritten, dir, p);
    assert p == PathOf(dir, BaseOf(dir, p));
    PathJarOfBase(dir, BaseOf(dir, p));
    if EndsWith(BaseOf(dir, p), TMP_FILE_SUFFIX) {
      SuffixesDiffer(BaseOf(dir, p));
    }
  }

  lemma ReadableIsKept(cfg: Config, s: State, items: seq<Item>, e: nat)
    requires JarInv(cfg, s) && PlaceInv(cfg, s) && NameInv(cfg, s) && Lists(AsWritten, cfg.dir, items, s.dir.Keys)
    requires Recoverable(AsWritten, cfg, s, e)
    ensures var name := s.entries[e].name; var live := ScanAll(FRESH, items).live;
      && name in live
      && (live[name].location == s.entries[e].location ==> IsNewestOnDisk(AsWritten, cfg, s, e))
      && (IsNewestOnDisk(AsWritten, cfg, s, e) && Unrivalled(AsWritten, cfg, s, e) ==>
            live[name].location == s.entries[e].location)
  {
    RecoverableIsLive(AsWritten, cfg, s, items, e);
    var f := RecoveredIsNewest(AsWritten, cfg, s, items, s.entries[e].name);
    if f != e {
      LocationsApart(cfg, s, e, f);
    }
  }
}
