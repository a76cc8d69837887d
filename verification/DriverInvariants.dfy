/** The inductive invariants of the driver protocol, one group per concern, each kept by every step. */
module DriverInvariants {
  import opened Wrappers
  import opened DriverCodec
  import opened DriverProtocol
  import opened Decimal
  import Download = DownloadUtil

  // ----- The entry map

  /** The mapped entry is the only uncondemned one of its name, and referenced entries are alive. */
  ghost predicate MapInv(s: State) {
    && Wf(s)
    && (forall n | n in s.emap :: s.entries[s.emap[n]].name == n && !s.entries[s.emap[n]].condemned)
    && (forall e | 0 <= e < |s.entries| && !s.entries[e].condemned ::
          s.entries[e].name in s.emap && s.emap[s.entries[e].name] == e)
    && (forall e | 0 <= e < |s.entries| && s.entries[e].destroyed :: s.entries[e].condemned)
    && (forall t | t in s.threads :: !s.entries[s.threads[t].e].destroyed)
  }

  /** Steps other than `Lookup` and `Reap`: names, condemnation and the map stay, threads keep their
      entries. */
  ghost predicate MapFrame(s: State, s': State) {
    && s'.emap == s.emap && |s'.entries| == |s.entries|
    && (forall e | 0 <= e < |s.entries| ::
          && s'.entries[e].name == s.entries[e].name
          && s'.entries[e].condemned == s.entries[e].condemned
          && s'.entries[e].destroyed == s.entries[e].destroyed)
    && (forall t | t in s'.threads :: t in s.threads && s'.threads[t].e == s.threads[t].e)
  }

  predicate OnFiles(a: Action) {
    a.Open? || a.Deliver? || a.Flush? || a.Fault? || a.Finish? || a.Close?
  }

  lemma FileStepKeepsWf(cfg: Config, s: State, a: Action)
    requires Enabled(cfg, s, a) && OnFiles(a)
    ensures Wf(Apply(cfg, s, a))
  {
  }

  lemma KeepsWf(cfg: Config, s: State, a: Action)
    requires Enabled(cfg, s, a)
    ensures Wf(Apply(cfg, s, a))
  {
    if OnFiles(a) {
      FileStepKeepsWf(cfg, s, a);
    }
  }

  lemma StepFramesMap(cfg: Config, s: State, a: Action)
    requires Enabled(cfg, s, a) && !a.Lookup? && !a.Reap?
    ensures MapFrame(s, Apply(cfg, s, a))
  {
    if OnFiles(a) {
      FileStepFramesMap(cfg, s, a);
    }
  }

  lemma FileStepFramesMap(cfg: Config, s: State, a: Action)
    requires Enabled(cfg, s, a) && OnFiles(a)
    ensures MapFrame(s, Apply(cfg, s, a))
  {
  }

  lemma CondemnKeepsMap(s: State, e: nat, name: string)
    requires MapInv(s) && name in s.emap && s.emap[name] == e
    ensures MapInv(Condemn(s, e).(emap := s.emap - {name}))
  {
  }

  lemma CreateKeepsMap(cfg: Config, s: State, t: nat, name: string, checksum: string, now: int)
    requires MapInv(s) && name !in s.emap && !At(s, t)
    ensures MapInv(Create(cfg, s, t, name, checksum, now))
  {
  }

  lemma ReplaceKeepsMap(cfg: Config, s: State, t: nat, name: string, checksum: string, now: int)
    requires MapInv(s) && name in s.emap && !At(s, t)
    ensures MapInv(Create(cfg, Condemn(s, s.emap[name]), t, name, checksum, now))
  {
    var s' := Condemn(s, s.emap[name]).(emap := s.emap - {name});
    CondemnKeepsMap(s, s.emap[name], name);
    CreateKeepsMap(cfg, s', t, name, checksum, now);
    ReplaceIsCreate(cfg, s, t, name, checksum, now);
  }

  lemma ReplaceIsCreate(cfg: Config, s: State, t: nat, name: string, checksum: string, now: int)
    requires Wf(s) && name in s.emap
    ensures Create(cfg, Condemn(s, s.emap[name]), t, name, checksum, now)
         == Create(cfg, Condemn(s, s.emap[name]).(emap := s.emap - {name}), t, name, checksum, now)
  {
    assert (s.emap - {name})[name := |s.entries|] == s.emap[name := |s.entries|];
  }

  lemma LookupKeepsMap(cfg: Config, s: State, a: Action)
    requires Enabled(cfg, s, a) && a.Lookup? && MapInv(s)
    ensures MapInv(Apply(cfg, s, a))
  {
    if a.name !in s.emap {
      CreateKeepsMap(cfg, s, a.t, a.name, a.checksum, a.now);
    } else if s.entries[s.emap[a.name]].checksum != a.checksum {
      ReplaceKeepsMap(cfg, s, a.t, a.name, a.checksum, a.now);
    }
  }

  lemma KeepsMap(cfg: Config, s: State, a: Action)
    requires Enabled(cfg, s, a) && MapInv(s)
    ensures MapInv(Apply(cfg, s, a))
  {
    KeepsWf(cfg, s, a);
    if a.Lookup? {
      LookupKeepsMap(cfg, s, a);
    } else if a.Reap? {
      ReapKeepsMap(cfg, s, a);
    } else {
      StepFramesMap(cfg, s, a);
      FrameKeepsMap(s, Apply(cfg, s, a));
    }
  }

  lemma FrameKeepsMap(s: State, s': State)
    requires MapInv(s) && MapFrame(s, s') && Wf(s')
    ensures MapInv(s')
  {
  }

  lemma ReapKeepsMap(cfg: Config, s: State, a: Action)
    requires Enabled(cfg, s, a) && a.Reap? && MapInv(s)
    ensures MapInv(Apply(cfg, s, a))
  {
  }

  // ----- The download locks

  predicate Settled(cfg: Config, entry: Entry) {
    && entry.downloaded == entry.available
    && (entry.completed ==> entry.downloaded) && (entry.cut.Some? ==> entry.completed)
    && (cfg.honour ==> entry.downloaded == entry.completed)
  }

  /** What an entry's flags say while a thread holding its lock stands at `pc`. */
  predicate PhaseOk(cfg: Config, entry: Entry, pc: Pc) {
    match pc
    case Waiting(_) => false
    case Locked(_) => Settled(cfg, entry)
    case Writing(_, _, _, _) => !entry.downloaded && !entry.available && !entry.completed && entry.cut.None?
    case Closing(_, _, _, _, ok) =>
      !entry.downloaded && !entry.available && entry.completed == ok && entry.cut.None?
    case Fetched(_, ok) =>
      !entry.downloaded && !entry.available && entry.completed == ok && (entry.cut.Some? ==> ok)
    case Flagged(_) => entry.downloaded && !entry.available && Backed(cfg, entry)
    case Published(_) => entry.downloaded && entry.available && Backed(cfg, entry)
  }

  /** With the status honoured only completed downloads are published. */
  predicate Backed(cfg: Config, entry: Entry) {
    (cfg.honour ==> entry.completed) && (entry.cut.Some? ==> entry.completed)
  }

  /** At most one thread holds an entry's lock, and the flags tell how far it has got. */
  ghost predicate LockInv(cfg: Config, s: State) {
    && Wf(s)
    && (forall t | t in s.threads && HoldsLock(s.threads[t]) ::
          s.entries[s.threads[t].e].owner == Some(t))
    && (forall e | 0 <= e < |s.entries| :: OwnerOk(cfg, s, e))
  }

  ghost predicate OwnerOk(cfg: Config, s: State, e: nat)
    requires e < |s.entries|
  {
    match s.entries[e].owner
    case None => Settled(cfg, s.entries[e])
    case Some(t) => At(s, t) && s.threads[t].e == e && PhaseOk(cfg, s.entries[e], s.threads[t])
  }

  /** A step of thread `t` inside a download touches its own program counter and its own entry. */
  ghost predicate LocalTo(s: State, s': State, t: nat, e: nat) {
    && s'.emap == s.emap && |s'.entries| == |s.entries|
    && (forall i | 0 <= i < |s.entries| && i != e :: s'.entries[i] == s.entries[i])
    && (forall u | u != t :: (u in s'.threads <==> u in s.threads))
    && (forall u | u != t && u in s.threads :: s'.threads[u] == s.threads[u])
  }

  lemma StepIsLocal(cfg: Config, s: State, a: Action)
    requires Enabled(cfg, s, a) && !a.Lookup? && !a.Reap?
    ensures LocalTo(s, Apply(cfg, s, a), a.t, s.threads[a.t].e)
  {
  }

  lemma OwnEntry(cfg: Config, s: State, a: Action)
    requires Enabled(cfg, s, a) && LockInv(cfg, s) && !a.Lookup? && !a.Reap?
    requires Wf(Apply(cfg, s, a)) && |Apply(cfg, s, a).entries| == |s.entries|
    ensures OwnStep(cfg, Apply(cfg, s, a), a.t, s.threads[a.t].e)
  {
    if OnFiles(a) {
      OwnEntryInDownload(cfg, s, a);
    } else {
      OwnEntryOutside(cfg, s, a);
    }
  }

  /** A thread that is still inside its call after its step holds the lock of its entry. */
  ghost predicate OwnStep(cfg: Config, s': State, t: nat, e: nat)
    requires e < |s'.entries|
  {
    && OwnerOk(cfg, s', e)
    && (At(s', t) ==> HoldsLock(s'.threads[t]) && s'.threads[t].e == e && s'.entries[e].owner == Some(t))
  }

  lemma OwnEntryInDownload(cfg: Config, s: State, a: Action)
    requires Enabled(cfg, s, a) && LockInv(cfg, s) && OnFiles(a)
    requires Wf(Apply(cfg, s, a)) && |Apply(cfg, s, a).entries| == |s.entries|
    ensures OwnStep(cfg, Apply(cfg, s, a), a.t, s.threads[a.t].e)
  {
    assert OwnerOk(cfg, s, s.threads[a.t].e);
    if a.Finish? {
      OwnEntryAtFinish(cfg, s, a);
    }
  }

  lemma OwnEntryAtFinish(cfg: Config, s: State, a: Action)
    requires Enabled(cfg, s, a) && LockInv(cfg, s) && a.Finish?
    requires Wf(Apply(cfg, s, a)) && |Apply(cfg, s, a).entries| == |s.entries|
    ensures OwnStep(cfg, Apply(cfg, s, a), a.t, s.threads[a.t].e)
  {
    assert OwnerOk(cfg, s, s.threads[a.t].e);
  }

  lemma OwnEntryOutside(cfg: Config, s: State, a: Action)
    requires Enabled(cfg, s, a) && LockInv(cfg, s) && !OnFiles(a) && !a.Lookup? && !a.Reap?
    requires Wf(Apply(cfg, s, a)) && |Apply(cfg, s, a).entries| == |s.entries|
    ensures OwnStep(cfg, Apply(cfg, s, a), a.t, s.threads[a.t].e)
  {
    assert OwnerOk(cfg, s, s.threads[a.t].e);
  }

  lemma StepKeepsLocks(cfg: Config, s: State, a: Action)
    requires Enabled(cfg, s, a) && LockInv(cfg, s) && !a.Lookup? && !a.Reap?
    ensures LockInv(cfg, Apply(cfg, s, a))
  {
    KeepsWf(cfg, s, a);
    StepIsLocal(cfg, s, a);
    OwnEntry(cfg, s, a);
    LocalKeepsLocks(cfg, s, Apply(cfg, s, a), a.t, s.threads[a.t].e);
  }

  lemma LocalKeepsLocks(cfg: Config, s: State, s': State, t: nat, e: nat)
    requires LockInv(cfg, s) && Wf(s') && LocalTo(s, s', t, e) && e < |s.entries|
    requires At(s, t) && s.threads[t].e == e && OwnerOk(cfg, s', e)
    requires At(s', t) ==>
      HoldsLock(s'.threads[t]) && s'.threads[t].e == e && s'.entries[e].owner == Some(t)
    requires forall u | u != t :: s.entries[e].owner != Some(u)
    ensures LockInv(cfg, s')
  {
    forall i | 0 <= i < |s'.entries|
      ensures OwnerOk(cfg, s', i)
    {
      assert OwnerOk(cfg, s, i);
    }
  }

  lemma LookupKeepsLocks(cfg: Config, s: State, a: Action)
    requires Enabled(cfg, s, a) && LockInv(cfg, s) && a.Lookup?
    ensures LockInv(cfg, Apply(cfg, s, a))
  {
    KeepsWf(cfg, s, a);
    var s' := Apply(cfg, s, a);
    forall e | 0 <= e < |s'.entries|
      ensures OwnerOk(cfg, s', e)
    {
      if e < |s.entries| {
        assert OwnerOk(cfg, s, e);
      }
    }
  }

  lemma ReapKeepsLocks(cfg: Config, s: State, a: Action)
    requires Enabled(cfg, s, a) && LockInv(cfg, s) && a.Reap?
    ensures LockInv(cfg, Apply(cfg, s, a))
  {
    KeepsWf(cfg, s, a);
    var s' := Apply(cfg, s, a);
    forall e | 0 <= e < |s'.entries|
      ensures OwnerOk(cfg, s', e)
    {
      assert OwnerOk(cfg, s, e);
    }
  }

  lemma KeepsLocks(cfg: Config, s: State, a: Action)
    requires Enabled(cfg, s, a) && LockInv(cfg, s)
    ensures LockInv(cfg, Apply(cfg, s, a))
  {
    if a.Lookup? { LookupKeepsLocks(cfg, s, a); }
    else if a.Reap? { ReapKeepsLocks(cfg, s, a); }
    else { StepKeepsLocks(cfg, s, a); }
  }

  // ----- What never changes, and what only rises

  function JarOf(entry: Entry): Jar {
    Jar(entry.name, entry.checksum, entry.ts)
  }

  predicate EntryRises(old_: Entry, new_: Entry) {
    && JarOf(new_) == JarOf(old_) && new_.location == old_.location
    && (old_.downloaded ==> new_.downloaded)
    && (old_.available ==> new_.available)
    && (old_.condemned ==> new_.condemned)
    && (old_.completed ==> new_.completed)
    && (old_.destroyed ==> new_.destroyed)
  }

  ghost predicate Rises(s: State, s': State) {
    && |s.entries| <= |s'.entries|
    && (forall e | 0 <= e < |s.entries| :: EntryRises(s.entries[e], s'.entries[e]))
    && s.answers <= s'.answers
  }

  lemma StepRises(cfg: Config, s: State, a: Action)
    requires Enabled(cfg, s, a)
    ensures Rises(s, Apply(cfg, s, a))
  {
    if a.Lookup? {
      LookupRises(cfg, s, a);
    } else if OnFiles(a) {
      FileStepRises(cfg, s, a);
    } else {
      FlagStepRises(cfg, s, a);
    }
  }

  lemma LookupRises(cfg: Config, s: State, a: Action)
    requires Enabled(cfg, s, a) && a.Lookup?
    ensures Rises(s, Apply(cfg, s, a))
  {
  }

  lemma FileStepRises(cfg: Config, s: State, a: Action)
    requires Enabled(cfg, s, a) && OnFiles(a)
    ensures Rises(s, Apply(cfg, s, a))
  {
  }

  lemma FlagStepRises(cfg: Config, s: State, a: Action)
    requires Enabled(cfg, s, a) && !a.Lookup? && !OnFiles(a)
    ensures Rises(s, Apply(cfg, s, a))
  {
  }

  // ----- Places and names

  /** Every entry's location stands for some driver, and was generated unless `init` found it. */
  ghost predicate LocInv(cfg: Config, s: State) {
    forall e: nat | e < |s.entries| :: LocOk(cfg, s.entries[e], e)
  }

  predicate LocOk(cfg: Config, entry: Entry, e: nat) {
    && PathJar(cfg.dir, entry.location).Some?
    && (|cfg.loaded| <= e ==> IsInt64(entry.ts) && entry.location == Location(cfg.dir, JarOf(entry)))
  }

  /** No two entries have a location that may hold both their files. */
  ghost predicate PlaceInv(cfg: Config, s: State) {
    forall i, j | 0 <= i < j < |s.entries| && Occupies(cfg, s.entries[i]) && Occupies(cfg, s.entries[j]) ::
      s.entries[i].location != s.entries[j].location
  }

  /** Every entry's location stands for that entry's own driver. */
  ghost predicate NameInv(cfg: Config, s: State) {
    forall e | 0 <= e < |s.entries| :: PathJar(cfg.dir, s.entries[e].location) == Some(JarOf(s.entries[e]))
  }

  lemma LocationsApart(cfg: Config, s: State, i: nat, j: nat)
    requires PlaceInv(cfg, s) && i < |s.entries| && j < |s.entries| && i != j
    requires Occupies(cfg, s.entries[i]) && Occupies(cfg, s.entries[j])
    ensures s.entries[i].location != s.entries[j].location
  {
  }

  lemma TmpApart(cfg: Config, s: State, i: nat, entry: Entry)
    requires LocInv(cfg, s) && i < |s.entries|
    ensures s.entries[i].location != TmpOf(cfg, entry)
  {
    TmpPathIsNoJar(cfg.dir, entry.name, entry.checksum);
  }

  /** The entries are the old ones, risen, and perhaps one more. */
  ghost predicate Grows(s: State, s': State, added: seq<Entry>) {
    && |s'.entries| == |s.entries| + |added| && |added| <= 1
    && (forall e | 0 <= e < |s.entries| :: EntryRises(s.entries[e], s'.entries[e]))
    && (added != [] ==> s'.entries[|s.entries|] == added[0])
  }

  function Added(cfg: Config, s: State, a: Action): seq<Entry>
    requires Wf(s)
  {
    if a.Lookup? && Creates(s, a.name, a.checksum) then [NewEntry(cfg, a.name, a.checksum, a.now)] else []
  }

  lemma StepGrows(cfg: Config, s: State, a: Action)
    requires Enabled(cfg, s, a)
    ensures Grows(s, Apply(cfg, s, a), Added(cfg, s, a))
  {
    StepRises(cfg, s, a);
  }

  lemma KeepsLocs(cfg: Config, s: State, a: Action)
    requires Enabled(cfg, s, a) && LocInv(cfg, s)
    ensures LocInv(cfg, Apply(cfg, s, a))
  {
    StepGrows(cfg, s, a);
    if Added(cfg, s, a) != [] {
      LocationParses(cfg.dir, Jar(a.name, a.checksum, a.now));
    }
    GrownKeepsLocs(cfg, s, Apply(cfg, s, a), Added(cfg, s, a));
  }

  lemma GrownKeepsLocs(cfg: Config, s: State, s': State, added: seq<Entry>)
    requires LocInv(cfg, s) && Grows(s, s', added)
    requires added != [] ==> LocOk(cfg, added[0], |s.entries|)
    ensures LocInv(cfg, s')
  {
    forall e: nat | e < |s'.entries|
      ensures LocOk(cfg, s'.entries[e], e)
    {
      assert e < |s.entries| ==> EntryRises(s.entries[e], s'.entries[e]) && LocOk(cfg, s.entries[e], e);
    }
  }

  /** Plain requests keep the locations readable, disciplined or not. */
  lemma KeepsNames(cfg: Config, s: State, a: Action)
    requires Enabled(cfg, s, a) && PlainRequest(s, a) && NameInv(cfg, s)
    ensures NameInv(cfg, Apply(cfg, s, a))
  {
    StepGrows(cfg, s, a);
    if Added(cfg, s, a) != [] {
      LocationAgrees(cfg.dir, Jar(a.name, a.checksum, a.now));
    }
    GrownKeepsNames(cfg, s, Apply(cfg, s, a), Added(cfg, s, a));
  }

  lemma GrownKeepsNames(cfg: Config, s: State, s': State, added: seq<Entry>)
    requires NameInv(cfg, s) && Grows(s, s', added)
    requires added != [] ==> PathJar(cfg.dir, added[0].location) == Some(JarOf(added[0]))
    ensures NameInv(cfg, s')
  {
    forall e | 0 <= e < |s'.entries|
      ensures PathJar(cfg.dir, s'.entries[e].location) == Some(JarOf(s'.entries[e]))
    {
      assert e < |s.entries| ==> EntryRises(s.entries[e], s'.entries[e]);
    }
  }

  /** Entries created apart stay apart. */
  lemma KeepsPlaces(cfg: Config, s: State, a: Action)
    requires Enabled(cfg, s, a) && CreatesApart(cfg, s, a) && PlaceInv(cfg, s)
    ensures PlaceInv(cfg, Apply(cfg, s, a))
  {
    StepGrows(cfg, s, a);
    var s' := Apply(cfg, s, a);
    forall i, j | 0 <= i < j < |s'.entries| && Occupies(cfg, s'.entries[i]) && Occupies(cfg, s'.entries[j])
      ensures s'.entries[i].location != s'.entries[j].location
    {
      StillApart(cfg, s, s', Added(cfg, s, a), i, j);
    }
  }

  lemma StillApart(cfg: Config, s: State, s': State, added: seq<Entry>, i: nat, j: nat)
    requires PlaceInv(cfg, s) && Grows(s, s', added) && i < j < |s'.entries|
    requires added != [] ==>
      forall e | 0 <= e < |s.entries| && Occupies(cfg, s.entries[e]) :: s.entries[e].location != added[0].location
    requires Occupies(cfg, s'.entries[i]) && Occupies(cfg, s'.entries[j])
    ensures s'.entries[i].location != s'.entries[j].location
  {
    assert EntryRises(s.entries[i], s'.entries[i]) && Occupies(cfg, s.entries[i]);
    if j < |s.entries| {
      assert EntryRises(s.entries[j], s'.entries[j]) && Occupies(cfg, s.entries[j]);
      LocationsApart(cfg, s, i, j);
    }
  }

  /** Entry `e` may have its file at `p`. */
  predicate IsAt(cfg: Config, s: State, e: nat, p: string) {
    e < |s.entries| && s.entries[e].location == p && Occupies(cfg, s.entries[e])
  }

  /** Every driver file on disk is the file of some entry. */
  ghost predicate JarInv(cfg: Config, s: State) {
    forall p | p in s.dir && PathJar(cfg.dir, p).Some? :: exists e: nat :: IsAt(cfg, s, e, p)
  }

  lemma KeepsJars(cfg: Config, s: State, a: Action)
    requires Enabled(cfg, s, a) && MapInv(s) && JarInv(cfg, s)
    ensures JarInv(cfg, Apply(cfg, s, a))
  {
    var s' := Apply(cfg, s, a);
    forall p | p in s'.dir && PathJar(cfg.dir, p).Some?
      ensures exists e: nat :: IsAt(cfg, s', e, p)
    {
      var e := JarOwner(cfg, s, a, p);
      StaysAt(cfg, s, a, e, p);
    }
  }

  lemma JarOwner(cfg: Config, s: State, a: Action, p: string) returns (e: nat)
    requires Enabled(cfg, s, a) && MapInv(s) && JarInv(cfg, s)
    requires p in Apply(cfg, s, a).dir && PathJar(cfg.dir, p).Some?
    ensures IsAt(cfg, s, e, p)
  {
    if p in s.dir {
      e :| IsAt(cfg, s, e, p);
    } else {
      e := s.threads[a.t].e;
      TmpPathIsNoJar(cfg.dir, s.entries[e].name, s.entries[e].checksum);
    }
  }

  lemma StaysAt(cfg: Config, s: State, a: Action, e: nat, p: string)
    requires Enabled(cfg, s, a) && IsAt(cfg, s, e, p)
    requires p in Apply(cfg, s, a).dir
    ensures IsAt(cfg, Apply(cfg, s, a), e, p)
  {
    StepRises(cfg, s, a);
    assert EntryRises(s.entries[e], Apply(cfg, s, a).entries[e]);
    if !a.Lookup? && !a.Reap? {
      StepFramesMap(cfg, s, a);
    }
  }

  /** The files of entries created apart are on disk exactly when their download completed. */
  ghost predicate DirInv(cfg: Config, s: State) {
    forall e | 0 <= e < |s.entries| && Occupies(cfg, s.entries[e]) ::
      s.entries[e].location in s.dir <==> s.entries[e].completed
  }

  lemma KeepsDir(cfg: Config, s: State, a: Action)
    requires Enabled(cfg, s, a) && CreatesApart(cfg, s, a)
    requires MapInv(s) && LocInv(cfg, s) && PlaceInv(cfg, s) && JarInv(cfg, s) && DirInv(cfg, s)
    ensures DirInv(cfg, Apply(cfg, s, a))
  {
    var s' := Apply(cfg, s, a);
    StepGrows(cfg, s, a);
    forall e | 0 <= e < |s'.entries| && Occupies(cfg, s'.entries[e])
      ensures s'.entries[e].location in s'.dir <==> s'.entries[e].completed
    {
      if e < |s.entries| {
        assert EntryRises(s.entries[e], s'.entries[e]);
        KeepsOnDisk(cfg, s, a, e);
      } else {
        NewLocationUnused(cfg, s, a);
      }
    }
  }

  lemma NewLocationUnused(cfg: Config, s: State, a: Action)
    requires Enabled(cfg, s, a) && CreatesApart(cfg, s, a) && JarInv(cfg, s)
    requires a.Lookup? && Creates(s, a.name, a.checksum)
    ensures Location(cfg.dir, Jar(a.name, a.checksum, a.now)) !in Apply(cfg, s, a).dir
  {
    LocationParses(cfg.dir, Jar(a.name, a.checksum, a.now));
  }

  lemma KeepsOnDisk(cfg: Config, s: State, a: Action, e: nat)
    requires Enabled(cfg, s, a) && MapInv(s) && LocInv(cfg, s) && PlaceInv(cfg, s) && DirInv(cfg, s)
    requires e < |s.entries| && Occupies(cfg, s.entries[e])
    requires e < |Apply(cfg, s, a).entries| && Occupies(cfg, Apply(cfg, s, a).entries[e])
    ensures var s' := Apply(cfg, s, a);
      s.entries[e].location in s'.dir <==> s'.entries[e].completed
  {
    if a.Finish? {
      FinishOnDisk(cfg, s, a, e);
    } else if a.Reap? {
      ReapOnDisk(cfg, s, a, e);
    } else if a.Open? {
      OpenOnDisk(cfg, s, a, e);
    } else {
      StillOnDisk(cfg, s, a, e);
    }
  }

  lemma ReapOnDisk(cfg: Config, s: State, a: Action, e: nat)
    requires Enabled(cfg, s, a) && a.Reap? && PlaceInv(cfg, s) && e < |s.entries| && Occupies(cfg, s.entries[e])
    requires Occupies(cfg, Apply(cfg, s, a).entries[e])
    ensures var s' := Apply(cfg, s, a);
      && (s.entries[e].location in s'.dir <==> s.entries[e].location in s.dir)
      && s'.entries[e].completed == s.entries[e].completed
  {
    if e != a.e {
      LocationsApart(cfg, s, e, a.e);
    }
  }

  lemma OpenOnDisk(cfg: Config, s: State, a: Action, e: nat)
    requires Enabled(cfg, s, a) && a.Open? && LocInv(cfg, s) && e < |s.entries|
    ensures var s' := Apply(cfg, s, a);
      && (s.entries[e].location in s'.dir <==> s.entries[e].location in s.dir)
      && s'.entries == s.entries
  {
    TmpApart(cfg, s, e, s.entries[s.threads[a.t].e]);
  }

  lemma StillOnDisk(cfg: Config, s: State, a: Action, e: nat)
    requires Enabled(cfg, s, a) && !a.Finish? && !a.Reap? && !a.Open? && e < |s.entries|
    ensures var s' := Apply(cfg, s, a);
      s'.dir == s.dir && e < |s'.entries| && s'.entries[e].completed == s.entries[e].completed
  {
  }

  lemma FinishOnDisk(cfg: Config, s: State, a: Action, e: nat)
    requires Enabled(cfg, s, a) && a.Finish? && MapInv(s) && LocInv(cfg, s) && PlaceInv(cfg, s) && DirInv(cfg, s)
    requires e < |s.entries| && Occupies(cfg, s.entries[e])
    ensures var s' := Apply(cfg, s, a);
      e < |s'.entries| && (s.entries[e].location in s'.dir <==> s'.entries[e].completed)
  {
    TmpApart(cfg, s, e, s.entries[s.threads[a.t].e]);
    if e != s.threads[a.t].e {
      LocationsApart(cfg, s, e, s.threads[a.t].e);
      FinishElsewhere(cfg, s, a, e);
    } else {
      FinishHere(cfg, s, a);
    }
  }

  lemma FinishElsewhere(cfg: Config, s: State, a: Action, e: nat)
    requires Enabled(cfg, s, a) && a.Finish? && e < |s.entries| && e != s.threads[a.t].e
    requires s.entries[e].location != TmpOf(cfg, s.entries[s.threads[a.t].e])
    requires s.entries[e].location != s.entries[s.threads[a.t].e].location
    ensures var s' := Apply(cfg, s, a);
      && e < |s'.entries| && s'.entries[e].completed == s.entries[e].completed
      && (s.entries[e].location in s'.dir <==> s.entries[e].location in s.dir)
  {
  }

  lemma FinishHere(cfg: Config, s: State, a: Action)
    requires Enabled(cfg, s, a) && a.Finish?
    ensures var s', e := Apply(cfg, s, a), s.threads[a.t].e;
      && e < |s'.entries|
      && (if s'.threads[a.t].ok then s'.entries[e].completed && s.entries[e].location in s'.dir
          else s'.entries == s.entries && s'.dir == s.dir)
  {
  }

  // ----- Who may still write a location

  /** Entry `i` may yet rename a file to its location. */
  predicate MayRename(s: State, i: nat)
    requires i < |s.entries|
  {
    !s.entries[i].completed && exists t | t in s.threads :: Queues(s, t, i) || Streams(s, t, i)
  }

  predicate Streams(s: State, t: nat, e: nat) {
    t in s.threads && s.threads[t].Writing? && s.threads[t].e == e
  }

  /** An entry gives way to a later one at its location: it no longer contends for it, and once the later
      one's file is there it renames nothing over it. */
  predicate Yields(cfg: Config, s: State, i: nat, j: nat)
    requires i < |s.entries| && j < |s.entries|
  {
    !Contends(cfg, s, i) && (s.entries[j].completed ==> !MayRename(s, i))
  }

  ghost predicate YieldInv(cfg: Config, s: State) {
    forall i: nat, j: nat | i < j < |s.entries| && s.entries[i].location == s.entries[j].location ::
      Yields(cfg, s, i, j)
  }

  lemma GivesWay(cfg: Config, s: State, i: nat, j: nat)
    requires YieldInv(cfg, s) && i < j < |s.entries| && s.entries[i].location == s.entries[j].location
    ensures !Contends(cfg, s, i) && (s.entries[j].completed ==> !MayRename(s, i))
  {
    assert Yields(cfg, s, i, j);
  }

  /** A later entry has put its file at the same location. */
  predicate Superseded(s: State, e: nat)
    requires e < |s.entries|
  {
    exists j | e < j < |s.entries| :: s.entries[j].location == s.entries[e].location && s.entries[j].completed
  }

  /** Nothing was created later at the entry's location, and it is not destroyed with removal. */
  predicate Owner(cfg: Config, s: State, e: nat)
    requires e < |s.entries|
  {
    && Occupies(cfg, s.entries[e])
    && forall j | e < j < |s.entries| :: s.entries[j].location != s.entries[e].location
  }

  lemma MappedOwns(cfg: Config, s: State, e: nat)
    requires MapInv(s) && YieldInv(cfg, s) && e < |s.entries| && Contends(cfg, s, e)
    ensures Owner(cfg, s, e)
  {
    forall j | e < j < |s.entries|
      ensures s.entries[j].location != s.entries[e].location
    {
      if s.entries[j].location == s.entries[e].location {
        GivesWay(cfg, s, e, j);
      }
    }
  }

  // ----- Files

  /** The directory as a reader sees it. */
  function Files(s: State): map<string, Bytes> {
    map p | p in s.dir && s.dir[p] < |s.inodes| :: s.inodes[s.dir[p]]
  }

  ghost predicate NoLinks(s: State) {
    forall p, q | p in s.dir && q in s.dir && p != q :: s.dir[p] != s.dir[q]
  }

  /** The path a thread's stream is behind: its temporary path, or after the rename its location. */
  function StreamPath(cfg: Config, s: State, pc: Pc): string
    requires pc.e < |s.entries|
  {
    if OnTmp(pc) then TmpOf(cfg, s.entries[pc.e]) else s.entries[pc.e].location
  }

  predicate IsBehind(s: State, path: string, pc: Pc)
    requires HasStream(pc)
  {
    path in s.dir && s.dir[path] == pc.ino
  }

  /** The stream is still behind a path. */
  predicate Linked(s: State, pc: Pc)
    requires pc.e < |s.entries|
  {
    OnTmp(pc) || (pc.Closing? && pc.ok && !Superseded(s, pc.e))
  }

  ghost predicate Unlinked(s: State, ino: nat) {
    forall p | p in s.dir :: s.dir[p] != ino
  }

  /** A linked stream is behind its path; another's writes reach no path: it was renamed and its file
      replaced since, or it was given up with nothing left to flush. */
  ghost predicate Placed(cfg: Config, s: State, pc: Pc)
    requires pc.e < |s.entries| && HasStream(pc)
  {
    if Linked(s, pc) then IsBehind(s, StreamPath(cfg, s, pc), pc)
    else if pc.Closing? && pc.ok then Unlinked(s, pc.ino)
    else true
  }

  predicate Pours(a: Action) {
    a.Flush? || a.Close?
  }

  /** What one step does to the directory. */
  ghost function FilesAfter(cfg: Config, s: State, a: Action): map<string, Bytes>
    requires Enabled(cfg, s, a)
  {
    var files := Files(s);
    match a
    case Open(t, ok) => if ok then files[TmpOf(cfg, s.entries[s.threads[t].e]) := []] else files
    case Flush(t, upto) => Poured(cfg, s, files, s.threads[t], upto)
    case Close(t, upto) => Poured(cfg, s, files, s.threads[t], upto)
    case Finish(t, renameOk) =>
      var entry := s.entries[s.threads[t].e];
      var tmp := TmpOf(cfg, entry);
      if Download.Matches(cfg.md5, s.threads[t].sent, entry.checksum) && renameOk && tmp in files
      then (files - {tmp})[entry.location := files[tmp]] else files
    case Reap(e) => if cfg.reap then files - {s.entries[e].location} else files
    case _ => files
  }

  function Poured(cfg: Config, s: State, files: map<string, Bytes>, pc: Pc, upto: nat): map<string, Bytes>
    requires pc.e < |s.entries| && HasStream(pc) && pc.flushed <= upto <= |pc.sent|
  {
    var path := StreamPath(cfg, s, pc);
    if Linked(s, pc) && path in files then files[path := Pushed(files[path], pc, upto)] else files
  }

  lemma OpenEffect(cfg: Config, s: State, a: Action)
    requires Enabled(cfg, s, a) && a.Open? && NoLinks(s)
    ensures NoLinks(Apply(cfg, s, a)) && Files(Apply(cfg, s, a)) == FilesAfter(cfg, s, a)
  {
    var path := TmpOf(cfg, s.entries[s.threads[a.t].e]);
    var s' := Apply(cfg, s, a);
    if a.ok && path in s.dir {
      Truncates(s, s', path);
    } else if a.ok {
      CreatesFile(s, s', path);
    }
  }

  lemma Truncates(s: State, s': State, path: string)
    requires Wf(s) && NoLinks(s) && path in s.dir
    requires s'.dir == s.dir && s'.inodes == s.inodes[s.dir[path] := []]
    ensures NoLinks(s') && Files(s') == Files(s)[path := []]
  {
  }

  lemma CreatesFile(s: State, s': State, path: string)
    requires Wf(s) && NoLinks(s) && path !in s.dir
    requires s'.dir == s.dir[path := |s.inodes|] && s'.inodes == s.inodes + [[]]
    ensures NoLinks(s') && Files(s') == Files(s)[path := []]
  {
  }

  /** Pouring into the file behind a path changes that path's content and no other. */
  lemma PourBehind(cfg: Config, s: State, a: Action, path: string)
    requires Enabled(cfg, s, a) && Pours(a) && NoLinks(s) && IsBehind(s, path, s.threads[a.t])
    ensures var s', pc := Apply(cfg, s, a), s.threads[a.t];
      && NoLinks(s') && pc.ino < |s.inodes| && path in Files(s)
      && Files(s') == Files(s)[path := Pushed(s.inodes[pc.ino], pc, a.upto)]
  {
  }

  /** Pouring into a file behind no path, or nothing at all, changes no path's content. */
  lemma PourAside(cfg: Config, s: State, a: Action)
    requires Enabled(cfg, s, a) && Pours(a)
    requires Unlinked(s, s.threads[a.t].ino) || s.threads[a.t].flushed == |s.threads[a.t].sent|
    ensures Apply(cfg, s, a).dir == s.dir && Files(Apply(cfg, s, a)) == Files(s)
  {
  }

  lemma PourEffect(cfg: Config, s: State, a: Action)
    requires Enabled(cfg, s, a) && Pours(a) && NoLinks(s) && Placed(cfg, s, s.threads[a.t])
    ensures NoLinks(Apply(cfg, s, a)) && Files(Apply(cfg, s, a)) == FilesAfter(cfg, s, a)
  {
    if Linked(s, s.threads[a.t]) {
      PourBehind(cfg, s, a, StreamPath(cfg, s, s.threads[a.t]));
    } else {
      PourAside(cfg, s, a);
    }
  }

  lemma FinishEffect(cfg: Config, s: State, a: Action)
    requires Enabled(cfg, s, a) && a.Finish? && NoLinks(s)
    ensures NoLinks(Apply(cfg, s, a)) && Files(Apply(cfg, s, a)) == FilesAfter(cfg, s, a)
  {
  }

  lemma Effect(cfg: Config, s: State, a: Action)
    requires Enabled(cfg, s, a) && NoLinks(s) && (Pours(a) ==> Placed(cfg, s, s.threads[a.t]))
    ensures Wf(Apply(cfg, s, a))
    ensures NoLinks(Apply(cfg, s, a)) && Files(Apply(cfg, s, a)) == FilesAfter(cfg, s, a)
  {
    KeepsWf(cfg, s, a);
    if a.Open? { OpenEffect(cfg, s, a); }
    else if Pours(a) { PourEffect(cfg, s, a); }
    else if a.Finish? { FinishEffect(cfg, s, a); }
    else if a.Reap? { ReapEffect(cfg, s, a); }
    else { OtherEffect(cfg, s, a); }
  }

  lemma ReapEffect(cfg: Config, s: State, a: Action)
    requires Enabled(cfg, s, a) && NoLinks(s) && a.Reap?
    ensures NoLinks(Apply(cfg, s, a)) && Files(Apply(cfg, s, a)) == FilesAfter(cfg, s, a)
  {
  }

  lemma OtherEffect(cfg: Config, s: State, a: Action)
    requires Enabled(cfg, s, a) && !a.Open? && !Pours(a) && !a.Finish? && !a.Reap?
    ensures Apply(cfg, s, a).dir == s.dir && Apply(cfg, s, a).inodes == s.inodes
    ensures FilesAfter(cfg, s, a) == Files(s)
  {
  }

  // ----- What is on disk

  /** A stream is placed; the file of a linked one holds what it has flushed. */
  ghost predicate StreamOk(cfg: Config, s: State, pc: Pc)
    requires pc.e < |s.entries| && HasStream(pc)
  {
    && Placed(cfg, s, pc) && pc.ino < |s.inodes| && pc.flushed <= |pc.sent| && |cfg.loaded| <= pc.e
    && (Linked(s, pc) ==> s.inodes[pc.ino] == pc.sent[..pc.flushed])
    && (pc.Closing? && pc.ok ==> Download.Matches(cfg.md5, pc.sent, s.entries[pc.e].checksum))
  }

  /** The entry's file is in place but its stream is not closed yet. */
  predicate InFlight(s: State, e: nat)
    requires e < |s.entries|
  {
    match s.entries[e].owner
    case None => false
    case Some(t) => At(s, t) && s.threads[t].Closing? && s.threads[t].ok
  }

  /** Bytes an entry's file may hold: those found at start-up, or bytes whose digest matched. */
  predicate Good(cfg: Config, e: nat, checksum: string, content: Bytes) {
    if e < |cfg.loaded| then content == cfg.loaded[e] else Download.Matches(cfg.md5, content, checksum)
  }

  /** What the file of an entry is after its close: all of it, and good, or what a short close left. */
  predicate Kept(cfg: Config, e: nat, entry: Entry, content: Bytes) {
    match entry.cut
    case None => Good(cfg, e, entry.checksum, content)
    case Some(left) => content == left
  }

  ghost predicate FileOk(cfg: Config, s: State, e: nat)
    requires e < |s.entries|
  {
    var entry, files := s.entries[e], Files(s);
    && (e < |cfg.loaded| ==> entry.completed)
    && (Owner(cfg, s, e) && entry.completed ==> entry.location in files)
    && (Owner(cfg, s, e) && entry.completed && !InFlight(s, e) ==> Kept(cfg, e, entry, files[entry.location]))
  }

  ghost predicate TmpsApart(cfg: Config, s: State)
    requires Wf(s)
  {
    forall t, u | t in s.threads && u in s.threads && t != u && OnTmp(s.threads[t]) && OnTmp(s.threads[u]) ::
      TmpOf(cfg, s.entries[s.threads[t].e]) != TmpOf(cfg, s.entries[s.threads[u].e])
  }

  ghost predicate DiskInv(cfg: Config, s: State) {
    && Wf(s) && NoLinks(s) && TmpsApart(cfg, s) && |cfg.loaded| <= |s.entries|
    && (forall t | t in s.threads && HasStream(s.threads[t]) :: StreamOk(cfg, s, s.threads[t]))
    && (forall e | 0 <= e < |s.entries| :: FileOk(cfg, s, e))
  }

  ghost predicate Inv(cfg: Config, s: State) {
    MapInv(s) && LockInv(cfg, s) && LocInv(cfg, s) && YieldInv(cfg, s) && DiskInv(cfg, s)
  }

  // ----- Giving way is kept

  lemma SameLocationSameTmp(cfg: Config, s: State, i: nat, j: nat)
    requires LocInv(cfg, s) && |cfg.loaded| <= i < |s.entries| && |cfg.loaded| <= j < |s.entries|
    requires s.entries[i].location == s.entries[j].location
    ensures TmpOf(cfg, s.entries[i]) == TmpOf(cfg, s.entries[j])
  {
    assert LocOk(cfg, s.entries[i], i) && LocOk(cfg, s.entries[j], j);
    LocationFixesTmp(cfg.dir, JarOf(s.entries[i]), JarOf(s.entries[j]));
  }

  /** A contender of the next state is one already. */
  lemma ContendsFalls(cfg: Config, s: State, a: Action, i: nat)
    requires Enabled(cfg, s, a) && MapInv(s) && i < |s.entries| && !Contends(cfg, s, i)
    ensures i < |Apply(cfg, s, a).entries| && !Contends(cfg, Apply(cfg, s, a), i)
  {
    var s' := Apply(cfg, s, a);
    StepRises(cfg, s, a);
    assert EntryRises(s.entries[i], s'.entries[i]);
    if !cfg.reap {
      if t :| t in s'.threads && Queues(s', t, i) {
        QueuedBefore(cfg, s, a, t, i);
      }
    }
  }

  /** Nobody starts a call for a condemned entry. */
  lemma QueuedBefore(cfg: Config, s: State, a: Action, t: nat, i: nat)
    requires Enabled(cfg, s, a) && MapInv(s) && i < |s.entries| && s.entries[i].condemned
    requires Queues(Apply(cfg, s, a), t, i)
    ensures Queues(s, t, i)
  {
    if a.Lookup? {
      LookupQueues(cfg, s, a, t, i);
    } else if !a.Reap? {
      StepIsLocal(cfg, s, a);
    }
  }

  lemma LookupQueues(cfg: Config, s: State, a: Action, t: nat, i: nat)
    requires Enabled(cfg, s, a) && a.Lookup? && MapInv(s) && i < |s.entries| && s.entries[i].condemned
    requires Queues(Apply(cfg, s, a), t, i)
    ensures Queues(s, t, i)
  {
  }

  lemma StreamedBefore(cfg: Config, s: State, a: Action, t: nat, i: nat)
    requires Enabled(cfg, s, a) && Streams(Apply(cfg, s, a), t, i)
    ensures Streams(s, t, i) || Queues(s, t, i)
  {
    if !a.Lookup? && !a.Reap? {
      StepIsLocal(cfg, s, a);
    }
  }

  lemma MayRenameFalls(cfg: Config, s: State, a: Action, i: nat)
    requires Enabled(cfg, s, a) && MapInv(s) && i < |s.entries| && s.entries[i].condemned && !MayRename(s, i)
    ensures i < |Apply(cfg, s, a).entries| && !MayRename(Apply(cfg, s, a), i)
  {
    var s' := Apply(cfg, s, a);
    StepRises(cfg, s, a);
    assert EntryRises(s.entries[i], s'.entries[i]);
    if t :| t in s'.threads && (Queues(s', t, i) || Streams(s', t, i)) {
      if Queues(s', t, i) {
        QueuedBefore(cfg, s, a, t, i);
      } else {
        StreamedBefore(cfg, s, a, t, i);
      }
    }
  }

  /** Who does not contend is condemned. */
  lemma YielderIsCondemned(cfg: Config, s: State, i: nat)
    requires MapInv(s) && i < |s.entries| && !Contends(cfg, s, i)
    ensures s.entries[i].condemned
  {
  }

  /** When a later entry's file is put in place, nobody who gave way to it is still streaming. */
  lemma CompletesAlone(cfg: Config, s: State, a: Action, i: nat, j: nat)
    requires Enabled(cfg, s, a) && Inv(cfg, s) && i < j < |s.entries|
    requires s.entries[i].location == s.entries[j].location
    requires !s.entries[j].completed && a.Finish? && s.threads[a.t].e == j
    ensures !MayRename(s, i)
  {
    assert Yields(cfg, s, i, j) && FileOk(cfg, s, i) && FileOk(cfg, s, j);
    if t :| t in s.threads && !s.entries[i].completed && (Queues(s, t, i) || Streams(s, t, i)) {
      assert !cfg.reap;
      SameLocationSameTmp(cfg, s, i, j);
      assert OnTmp(s.threads[t]) && OnTmp(s.threads[a.t]);
    }
  }

  lemma NewlyCompleted(cfg: Config, s: State, a: Action, j: nat)
    requires Enabled(cfg, s, a) && j < |s.entries| && !s.entries[j].completed
    requires j < |Apply(cfg, s, a).entries| && Apply(cfg, s, a).entries[j].completed
    ensures a.Finish? && s.threads[a.t].e == j
  {
    if !a.Lookup? && !a.Reap? {
      StepIsLocal(cfg, s, a);
    }
  }

  lemma StillYields(cfg: Config, s: State, a: Action, i: nat, j: nat)
    requires Enabled(cfg, s, a) && Inv(cfg, s) && i < j < |s.entries|
    requires s.entries[i].location == s.entries[j].location
    ensures i < j < |Apply(cfg, s, a).entries| && Yields(cfg, Apply(cfg, s, a), i, j)
  {
    var s' := Apply(cfg, s, a);
    assert Yields(cfg, s, i, j);
    ContendsFalls(cfg, s, a, i);
    EntryCount(cfg, s, a);
    YielderIsCondemned(cfg, s, i);
    if s'.entries[j].completed {
      if !s.entries[j].completed {
        NewlyCompleted(cfg, s, a, j);
        CompletesAlone(cfg, s, a, i, j);
      }
      MayRenameFalls(cfg, s, a, i);
    }
  }

  /** The new entry, if there is one, is given way to. */
  lemma NewIsYieldedTo(cfg: Config, s: State, a: Action, i: nat)
    requires Enabled(cfg, s, a) && Disciplined(cfg, s, a) && MapInv(s) && i < |s.entries|
    requires a.Lookup? && Creates(s, a.name, a.checksum)
    requires s.entries[i].location == Location(cfg.dir, Jar(a.name, a.checksum, a.now))
    ensures |Apply(cfg, s, a).entries| == |s.entries| + 1 && Yields(cfg, Apply(cfg, s, a), i, |s.entries|)
  {
    assert !Contends(cfg, s, i);
    ContendsFalls(cfg, s, a, i);
  }

  lemma EntryCount(cfg: Config, s: State, a: Action)
    requires Enabled(cfg, s, a)
    ensures |Apply(cfg, s, a).entries|
         == |s.entries| + if a.Lookup? && Creates(s, a.name, a.checksum) then 1 else 0
  {
    if !a.Lookup? && !a.Reap? {
      StepFramesMap(cfg, s, a);
    }
  }

  lemma KeepsYields(cfg: Config, s: State, a: Action)
    requires Enabled(cfg, s, a) && Disciplined(cfg, s, a) && Inv(cfg, s)
    ensures YieldInv(cfg, Apply(cfg, s, a))
  {
    var s' := Apply(cfg, s, a);
    StepGrows(cfg, s, a);
    forall i: nat, j: nat | i < j < |s'.entries| && s'.entries[i].location == s'.entries[j].location
      ensures Yields(cfg, s', i, j)
    {
      assert EntryRises(s.entries[i], s'.entries[i]);
      if j < |s.entries| {
        assert EntryRises(s.entries[j], s'.entries[j]);
        StillYields(cfg, s, a, i, j);
      } else {
        NewIsYieldedTo(cfg, s, a, i);
      }
    }
  }

  // ----- Steps touch only their own paths

  ghost function Touched(cfg: Config, s: State, a: Action): set<string>
    requires Enabled(cfg, s, a)
  {
    match a
    case Open(t, ok) => if ok then {TmpOf(cfg, s.entries[s.threads[t].e])} else {}
    case Flush(t, _) => PouredPaths(cfg, s, s.threads[t])
    case Close(t, _) => PouredPaths(cfg, s, s.threads[t])
    case Finish(t, _) => {TmpOf(cfg, s.entries[s.threads[t].e]), s.entries[s.threads[t].e].location}
    case Reap(e) => if cfg.reap then {s.entries[e].location} else {}
    case _ => {}
  }

  function PouredPaths(cfg: Config, s: State, pc: Pc): set<string>
    requires pc.e < |s.entries|
  {
    if Linked(s, pc) then {StreamPath(cfg, s, pc)} else {}
  }

  predicate SameFile(s: State, s': State, path: string) {
    && (path in s'.dir <==> path in s.dir)
    && (path in s.dir && s.dir[path] < |s.inodes| ==>
          && s'.dir[path] == s.dir[path] && s.dir[path] < |s'.inodes|
          && s'.inodes[s.dir[path]] == s.inodes[s.dir[path]])
  }

  lemma TouchesNothing(cfg: Config, s: State, a: Action)
    requires Enabled(cfg, s, a) && !OnFiles(a) && !a.Reap?
    ensures Touched(cfg, s, a) == {}
  {
  }

  lemma PourStays(cfg: Config, s: State, a: Action, path: string)
    requires Enabled(cfg, s, a) && Pours(a) && NoLinks(s) && path !in Touched(cfg, s, a)
    requires Placed(cfg, s, s.threads[a.t])
    ensures SameFile(s, Apply(cfg, s, a), path)
  {
  }

  lemma UntouchedStays(cfg: Config, s: State, a: Action, path: string)
    requires Enabled(cfg, s, a) && NoLinks(s) && path !in Touched(cfg, s, a)
    requires Pours(a) ==> Placed(cfg, s, s.threads[a.t])
    ensures SameFile(s, Apply(cfg, s, a), path)
  {
    if Pours(a) {
      PourStays(cfg, s, a, path);
    }
  }

  lemma HoldersApart(cfg: Config, s: State, t: nat, u: nat)
    requires LockInv(cfg, s) && At(s, t) && At(s, u) && t != u
    requires HoldsLock(s.threads[t]) && HoldsLock(s.threads[u])
    ensures s.threads[t].e != s.threads[u].e
  {
  }

  /** The step belongs to entry `e`. */
  predicate Owns(s: State, a: Action, e: nat) {
    if a.Lookup? then false else if a.Reap? then e == a.e else At(s, a.t) && e == s.threads[a.t].e
  }

  lemma ReapSparesLocation(cfg: Config, s: State, a: Action, i: nat)
    requires Enabled(cfg, s, a) && a.Reap? && YieldInv(cfg, s) && i < |s.entries| && i != a.e
    requires Occupies(cfg, s.entries[i])
    ensures s.entries[i].location !in Touched(cfg, s, a)
  {
    if cfg.reap && s.entries[i].location == s.entries[a.e].location {
      if i < a.e {
        GivesWay(cfg, s, i, a.e);
      } else {
        GivesWay(cfg, s, a.e, i);
      }
    }
  }

  /** A completed entry that is not superseded has its location to itself: the download of another
      entry does not touch it, except that a later one may put its own file there. */
  lemma ThreadSparesLocation(cfg: Config, s: State, a: Action, i: nat)
    requires Enabled(cfg, s, a) && OnFiles(a) && LockInv(cfg, s) && LocInv(cfg, s) && YieldInv(cfg, s)
    requires i < |s.entries| && i != s.threads[a.t].e && s.entries[i].completed && !Superseded(s, i)
    requires a.Finish? && i < s.threads[a.t].e ==> s.entries[s.threads[a.t].e].location != s.entries[i].location
    ensures s.entries[i].location !in Touched(cfg, s, a)
  {
    TmpApart(cfg, s, i, s.entries[s.threads[a.t].e]);
    if a.Finish? {
      FinishSparesLocation(cfg, s, a, i);
    } else if Pours(a) {
      PourSparesLocation(cfg, s, a, i);
    } else {
      OpenSparesLocation(cfg, s, a, i);
    }
  }

  lemma OpenSparesLocation(cfg: Config, s: State, a: Action, i: nat)
    requires Enabled(cfg, s, a) && (a.Open? || a.Deliver? || a.Fault?) && i < |s.entries|
    requires s.entries[i].location != TmpOf(cfg, s.entries[s.threads[a.t].e])
    ensures s.entries[i].location !in Touched(cfg, s, a)
  {
  }

  lemma FinishSparesLocation(cfg: Config, s: State, a: Action, i: nat)
    requires Enabled(cfg, s, a) && a.Finish? && LockInv(cfg, s) && YieldInv(cfg, s)
    requires i < |s.entries| && i != s.threads[a.t].e && s.entries[i].completed
    requires i < s.threads[a.t].e ==> s.entries[s.threads[a.t].e].location != s.entries[i].location
    requires s.entries[i].location != TmpOf(cfg, s.entries[s.threads[a.t].e])
    ensures s.entries[i].location !in Touched(cfg, s, a)
  {
    var e := s.threads[a.t].e;
    assert OwnerOk(cfg, s, e) && Streams(s, a.t, e);
    if s.entries[i].location == s.entries[e].location {
      GivesWay(cfg, s, e, i);
    }
  }

  lemma PourSparesLocation(cfg: Config, s: State, a: Action, i: nat)
    requires Enabled(cfg, s, a) && Pours(a) && LockInv(cfg, s)
    requires i < |s.entries| && i != s.threads[a.t].e && s.entries[i].completed && !Superseded(s, i)
    requires s.entries[i].location != TmpOf(cfg, s.entries[s.threads[a.t].e])
    ensures s.entries[i].location !in Touched(cfg, s, a)
  {
    var e := s.threads[a.t].e;
    assert OwnerOk(cfg, s, e);
    if s.entries[i].location == s.entries[e].location && e < i {
      assert Superseded(s, e);
    }
  }

  /** What `CompletedUntouched` asks of a step: it is another entry's, and puts no later file in place. */
  predicate Spares(s: State, a: Action, i: nat)
    requires Wf(s) && i < |s.entries|
    requires !a.Lookup? && !a.Reap? ==> At(s, a.t)
  {
    && !Owns(s, a, i)
    && (a.Finish? && i < s.threads[a.t].e ==> s.entries[s.threads[a.t].e].location != s.entries[i].location)
  }

  lemma CompletedUntouched(cfg: Config, s: State, a: Action, i: nat)
    requires Enabled(cfg, s, a) && LockInv(cfg, s) && LocInv(cfg, s) && YieldInv(cfg, s)
    requires i < |s.entries| && s.entries[i].completed && !Superseded(s, i) && Occupies(cfg, s.entries[i])
    requires Spares(s, a, i)
    ensures s.entries[i].location !in Touched(cfg, s, a)
  {
    if a.Reap? {
      ReapSparesLocation(cfg, s, a, i);
    } else if OnFiles(a) {
      ThreadSparesLocation(cfg, s, a, i);
    } else {
      TouchesNothing(cfg, s, a);
    }
  }

  lemma CompletedStays(cfg: Config, s: State, a: Action, i: nat)
    requires Enabled(cfg, s, a) && Inv(cfg, s)
    requires i < |s.entries| && s.entries[i].completed && !Superseded(s, i) && Occupies(cfg, s.entries[i])
    requires Spares(s, a, i)
    ensures SameFile(s, Apply(cfg, s, a), s.entries[i].location)
  {
    CompletedUntouched(cfg, s, a, i);
    if Pours(a) {
      PourerIsPlaced(cfg, s, a);
    }
    UntouchedStays(cfg, s, a, s.entries[i].location);
  }

  lemma PourerIsPlaced(cfg: Config, s: State, a: Action)
    requires Enabled(cfg, s, a) && Pours(a) && DiskInv(cfg, s)
    ensures Placed(cfg, s, s.threads[a.t])
  {
    assert StreamOk(cfg, s, s.threads[a.t]);
  }

  lemma TmpStreamUntouched(cfg: Config, s: State, a: Action, u: nat)
    requires Enabled(cfg, s, a) && Disciplined(cfg, s, a) && OnFiles(a)
    requires LocInv(cfg, s) && TmpsApart(cfg, s)
    requires At(s, u) && OnTmp(s.threads[u]) && u != a.t
    ensures TmpOf(cfg, s.entries[s.threads[u].e]) !in Touched(cfg, s, a)
  {
    TmpApart(cfg, s, s.threads[a.t].e, s.entries[s.threads[u].e]);
  }

  lemma ReapSparesTmp(cfg: Config, s: State, a: Action, entry: Entry)
    requires Enabled(cfg, s, a) && a.Reap? && LocInv(cfg, s)
    ensures TmpOf(cfg, entry) !in Touched(cfg, s, a)
  {
    TmpApart(cfg, s, a.e, entry);
  }

  // ----- Other threads' streams

  lemma ThreadStays(cfg: Config, s: State, a: Action, u: nat)
    requires Enabled(cfg, s, a) && At(s, u)
    requires !a.Lookup? && !a.Reap? ==> u != a.t
    ensures At(Apply(cfg, s, a), u) && Apply(cfg, s, a).threads[u] == s.threads[u]
  {
    if !a.Lookup? && !a.Reap? {
      StepIsLocal(cfg, s, a);
    }
  }

  /** A stream behind a temporary path stays there. */
  lemma TmpStreamKept(cfg: Config, s: State, a: Action, u: nat)
    requires Enabled(cfg, s, a) && Disciplined(cfg, s, a) && Inv(cfg, s)
    requires At(s, u) && OnTmp(s.threads[u])
    requires !a.Lookup? && !a.Reap? ==> u != a.t
    ensures SameFile(s, Apply(cfg, s, a), TmpOf(cfg, s.entries[s.threads[u].e]))
  {
    var tmp := TmpOf(cfg, s.entries[s.threads[u].e]);
    assert Pours(a) ==> StreamOk(cfg, s, s.threads[a.t]);
    if a.Reap? {
      ReapSparesTmp(cfg, s, a, s.entries[s.threads[u].e]);
    } else if OnFiles(a) {
      TmpStreamUntouched(cfg, s, a, u);
    }
    UntouchedStays(cfg, s, a, tmp);
  }

  /** The step puts a later entry's file where entry `i`'s was. */
  predicate Replaces(cfg: Config, s: State, a: Action, i: nat)
    requires Enabled(cfg, s, a) && i < |s.entries|
  {
    && a.Finish? && i < s.threads[a.t].e && s.entries[s.threads[a.t].e].location == s.entries[i].location
    && Apply(cfg, s, a).threads[a.t].ok
  }

  /** A renamed stream stays behind its location, or its file is replaced. */
  lemma RenamedStreamKept(cfg: Config, s: State, a: Action, u: nat)
    requires Enabled(cfg, s, a) && Inv(cfg, s)
    requires At(s, u) && s.threads[u].Closing? && s.threads[u].ok && !Superseded(s, s.threads[u].e)
    requires !a.Lookup? && !a.Reap? ==> u != a.t
    requires !Replaces(cfg, s, a, s.threads[u].e)
    ensures SameFile(s, Apply(cfg, s, a), s.entries[s.threads[u].e].location)
  {
    var i := s.threads[u].e;
    if a.Finish? && s.entries[s.threads[a.t].e].location == s.entries[i].location {
      FailedFinishStays(cfg, s, a, u);
    } else {
      RenamedIsSpared(cfg, s, a, u);
      CompletedStays(cfg, s, a, i);
    }
  }

  lemma FailedFinishStays(cfg: Config, s: State, a: Action, u: nat)
    requires Enabled(cfg, s, a) && Inv(cfg, s) && a.Finish?
    requires At(s, u) && s.threads[u].Closing? && s.threads[u].ok && u != a.t
    requires s.entries[s.threads[a.t].e].location == s.entries[s.threads[u].e].location
    requires !Replaces(cfg, s, a, s.threads[u].e)
    ensures SameFile(s, Apply(cfg, s, a), s.entries[s.threads[u].e].location)
  {
    var i, e := s.threads[u].e, s.threads[a.t].e;
    HoldersApart(cfg, s, a.t, u);
    assert OwnerOk(cfg, s, i) && OwnerOk(cfg, s, e);
    if e < i {
      assert Yields(cfg, s, e, i) && Streams(s, a.t, e);
    }
  }

  lemma RenamedIsSpared(cfg: Config, s: State, a: Action, u: nat)
    requires Enabled(cfg, s, a) && MapInv(s) && LockInv(cfg, s)
    requires At(s, u) && s.threads[u].Closing? && s.threads[u].ok
    requires !a.Lookup? && !a.Reap? ==> u != a.t
    requires a.Finish? ==> s.entries[s.threads[a.t].e].location != s.entries[s.threads[u].e].location
    ensures s.entries[s.threads[u].e].completed && Occupies(cfg, s.entries[s.threads[u].e])
    ensures Spares(s, a, s.threads[u].e)
  {
    assert OwnerOk(cfg, s, s.threads[u].e);
    if !a.Lookup? && !a.Reap? && !a.Acquire? {
      HoldersApart(cfg, s, a.t, u);
    }
  }

  /** Replaced, its file is behind no path. */
  lemma ReplacedIsUnlinked(cfg: Config, s: State, a: Action, u: nat)
    requires Enabled(cfg, s, a) && NoLinks(s) && At(s, u) && HasStream(s.threads[u])
    requires IsBehind(s, s.entries[s.threads[u].e].location, s.threads[u])
    requires Replaces(cfg, s, a, s.threads[u].e)
    requires s.entries[s.threads[u].e].location != TmpOf(cfg, s.entries[s.threads[a.t].e])
    ensures Unlinked(Apply(cfg, s, a), s.threads[u].ino)
  {
  }

  /** What is behind no path stays so. */
  lemma UnlinkedStays(cfg: Config, s: State, a: Action, ino: nat)
    requires Enabled(cfg, s, a) && Unlinked(s, ino) && ino < |s.inodes|
    ensures Unlinked(Apply(cfg, s, a), ino) && ino < |Apply(cfg, s, a).inodes|
  {
  }

  lemma SupersededStays(cfg: Config, s: State, a: Action, i: nat)
    requires Enabled(cfg, s, a) && i < |s.entries| && Superseded(s, i)
    ensures i < |Apply(cfg, s, a).entries| && Superseded(Apply(cfg, s, a), i)
  {
    StepRises(cfg, s, a);
    var j :| i < j < |s.entries| && s.entries[j].location == s.entries[i].location && s.entries[j].completed;
    assert EntryRises(s.entries[i], Apply(cfg, s, a).entries[i]);
    assert EntryRises(s.entries[j], Apply(cfg, s, a).entries[j]);
  }

  /** An entry becomes superseded only by a step that replaces its file. */
  lemma NewlySuperseded(cfg: Config, s: State, a: Action, i: nat)
    requires Enabled(cfg, s, a) && i < |s.entries| && !Superseded(s, i)
    requires i < |Apply(cfg, s, a).entries| && Superseded(Apply(cfg, s, a), i)
    ensures Replaces(cfg, s, a, i)
  {
    StepGrows(cfg, s, a);
    var j := SupersedingEntry(s, Apply(cfg, s, a), Added(cfg, s, a), i);
    NewlyCompleted(cfg, s, a, j);
  }

  /** The entry that has come to supersede another was there, and not completed. */
  lemma SupersedingEntry(s: State, s': State, added: seq<Entry>, i: nat) returns (j: nat)
    requires Grows(s, s', added) && (added != [] ==> !added[0].completed)
    requires i < |s.entries| && !Superseded(s, i) && Superseded(s', i)
    ensures i < j < |s.entries| && s.entries[j].location == s.entries[i].location
    ensures !s.entries[j].completed && s'.entries[j].completed
  {
    j :| i < j < |s'.entries| && s'.entries[j].location == s'.entries[i].location && s'.entries[j].completed;
    assert EntryRises(s.entries[i], s'.entries[i]);
    assert j < |s.entries|;
    assert EntryRises(s.entries[j], s'.entries[j]);
  }

  lemma ReplacingSupersedes(cfg: Config, s: State, a: Action, i: nat)
    requires Enabled(cfg, s, a) && i < |s.entries| && Replaces(cfg, s, a, i)
    ensures i < |Apply(cfg, s, a).entries| && Superseded(Apply(cfg, s, a), i)
  {
    var s' := Apply(cfg, s, a);
    StepRises(cfg, s, a);
    assert EntryRises(s.entries[i], s'.entries[i]);
    var j := s.threads[a.t].e;
    assert s'.entries[j].completed && s'.entries[j].location == s.entries[j].location;
  }

  lemma OtherStreamKept(cfg: Config, s: State, a: Action, u: nat)
    requires Enabled(cfg, s, a) && Disciplined(cfg, s, a) && Inv(cfg, s)
    requires At(s, u) && HasStream(s.threads[u])
    requires !a.Lookup? && !a.Reap? ==> u != a.t
    ensures var s' := Apply(cfg, s, a);
      At(s', u) && s'.threads[u] == s.threads[u] && s.threads[u].e < |s'.entries|
      && StreamOk(cfg, s', s'.threads[u])
  {
    var s', pc := Apply(cfg, s, a), s.threads[u];
    StepRises(cfg, s, a);
    ThreadStays(cfg, s, a, u);
    assert StreamOk(cfg, s, pc) && EntryRises(s.entries[pc.e], s'.entries[pc.e]);
    if OnTmp(pc) {
      TmpStreamKept(cfg, s, a, u);
      SameStream(cfg, s, s', pc);
    } else if pc.ok {
      RenamedKept(cfg, s, a, u);
    } else {
      InodesGrow(cfg, s, a);
    }
  }

  lemma InodesGrow(cfg: Config, s: State, a: Action)
    requires Enabled(cfg, s, a)
    ensures |s.inodes| <= |Apply(cfg, s, a).inodes|
  {
  }

  lemma RenamedKept(cfg: Config, s: State, a: Action, u: nat)
    requires Enabled(cfg, s, a) && Inv(cfg, s)
    requires At(s, u) && s.threads[u].Closing? && s.threads[u].ok
    requires !a.Lookup? && !a.Reap? ==> u != a.t
    requires s.threads[u].e < |Apply(cfg, s, a).entries|
    requires EntryRises(s.entries[s.threads[u].e], Apply(cfg, s, a).entries[s.threads[u].e])
    ensures StreamOk(cfg, Apply(cfg, s, a), s.threads[u])
  {
    var pc := s.threads[u];
    if Superseded(s, pc.e) {
      SupersededKept(cfg, s, a, u);
    } else if Replaces(cfg, s, a, pc.e) {
      ReplacedKept(cfg, s, a, u);
    } else {
      StillBehindKept(cfg, s, a, u);
    }
  }

  lemma SupersededKept(cfg: Config, s: State, a: Action, u: nat)
    requires Enabled(cfg, s, a) && DiskInv(cfg, s)
    requires At(s, u) && s.threads[u].Closing? && s.threads[u].ok && Superseded(s, s.threads[u].e)
    requires s.threads[u].e < |Apply(cfg, s, a).entries|
    requires EntryRises(s.entries[s.threads[u].e], Apply(cfg, s, a).entries[s.threads[u].e])
    ensures StreamOk(cfg, Apply(cfg, s, a), s.threads[u])
  {
    assert StreamOk(cfg, s, s.threads[u]);
    SupersededStays(cfg, s, a, s.threads[u].e);
    UnlinkedStays(cfg, s, a, s.threads[u].ino);
  }

  lemma ReplacedKept(cfg: Config, s: State, a: Action, u: nat)
    requires Enabled(cfg, s, a) && DiskInv(cfg, s) && LocInv(cfg, s)
    requires At(s, u) && s.threads[u].Closing? && s.threads[u].ok && !Superseded(s, s.threads[u].e)
    requires Replaces(cfg, s, a, s.threads[u].e) && s.threads[u].e < |Apply(cfg, s, a).entries|
    requires EntryRises(s.entries[s.threads[u].e], Apply(cfg, s, a).entries[s.threads[u].e])
    ensures StreamOk(cfg, Apply(cfg, s, a), s.threads[u])
  {
    assert StreamOk(cfg, s, s.threads[u]);
    InodesGrow(cfg, s, a);
    ReplacingSupersedes(cfg, s, a, s.threads[u].e);
    TmpApart(cfg, s, s.threads[u].e, s.entries[s.threads[a.t].e]);
    ReplacedIsUnlinked(cfg, s, a, u);
  }

  lemma StillBehindKept(cfg: Config, s: State, a: Action, u: nat)
    requires Enabled(cfg, s, a) && Inv(cfg, s)
    requires At(s, u) && s.threads[u].Closing? && s.threads[u].ok && !Superseded(s, s.threads[u].e)
    requires !a.Lookup? && !a.Reap? ==> u != a.t
    requires !Replaces(cfg, s, a, s.threads[u].e) && s.threads[u].e < |Apply(cfg, s, a).entries|
    requires EntryRises(s.entries[s.threads[u].e], Apply(cfg, s, a).entries[s.threads[u].e])
    ensures StreamOk(cfg, Apply(cfg, s, a), s.threads[u])
  {
    var s', pc := Apply(cfg, s, a), s.threads[u];
    assert StreamOk(cfg, s, pc);
    NotYetSuperseded(cfg, s, a, pc.e);
    RenamedStreamKept(cfg, s, a, u);
    EntryCount(cfg, s, a);
    SameStream(cfg, s, s', pc);
  }

  lemma NotYetSuperseded(cfg: Config, s: State, a: Action, i: nat)
    requires Enabled(cfg, s, a) && i < |s.entries| && !Superseded(s, i) && !Replaces(cfg, s, a, i)
    requires i < |Apply(cfg, s, a).entries|
    ensures !Superseded(Apply(cfg, s, a), i)
  {
    if Superseded(Apply(cfg, s, a), i) {
      NewlySuperseded(cfg, s, a, i);
    }
  }

  lemma SameStream(cfg: Config, s: State, s': State, pc: Pc)
    requires HasStream(pc) && pc.e < |s.entries| <= |s'.entries|
    requires EntryRises(s.entries[pc.e], s'.entries[pc.e])
    requires StreamOk(cfg, s, pc) && Linked(s, pc) && Linked(s', pc) && SameFile(s, s', StreamPath(cfg, s, pc))
    ensures StreamOk(cfg, s', pc)
  {
  }

  // ----- The acting thread's stream

  lemma OpenedStream(cfg: Config, s: State, a: Action)
    requires Enabled(cfg, s, a) && a.Open? && a.ok && LockInv(cfg, s) && DiskInv(cfg, s)
    ensures var s' := Apply(cfg, s, a);
      s'.threads[a.t].e < |s'.entries| && StreamOk(cfg, s', s'.threads[a.t])
  {
    var e := s.threads[a.t].e;
    assert OwnerOk(cfg, s, e) && FileOk(cfg, s, e);
  }

  /** A thread that is still streaming is not superseded. */
  lemma StreamerIsLatest(cfg: Config, s: State, t: nat)
    requires LockInv(cfg, s) && YieldInv(cfg, s) && At(s, t) && s.threads[t].Writing?
    ensures !Superseded(s, s.threads[t].e)
  {
    var e := s.threads[t].e;
    assert OwnerOk(cfg, s, e) && Streams(s, t, e);
    if j :| e < j < |s.entries| && s.entries[j].location == s.entries[e].location && s.entries[j].completed {
      GivesWay(cfg, s, e, j);
    }
  }

  lemma FinishedStream(cfg: Config, s: State, a: Action)
    requires Enabled(cfg, s, a) && a.Finish? && LockInv(cfg, s) && YieldInv(cfg, s) && DiskInv(cfg, s)
    ensures var s' := Apply(cfg, s, a);
      s'.threads[a.t].e < |s'.entries| && StreamOk(cfg, s', s'.threads[a.t])
  {
    assert StreamOk(cfg, s, s.threads[a.t]);
    if Apply(cfg, s, a).threads[a.t].ok {
      StreamerIsLatest(cfg, s, a.t);
      StillLatest(cfg, s, a);
    }
  }

  /** The entry whose download finishes is superseded after the step only if it was before. */
  lemma StillLatest(cfg: Config, s: State, a: Action)
    requires Enabled(cfg, s, a) && a.Finish? && !Superseded(s, s.threads[a.t].e)
    ensures s.threads[a.t].e < |Apply(cfg, s, a).entries| && !Superseded(Apply(cfg, s, a), s.threads[a.t].e)
  {
    EntryCount(cfg, s, a);
    if Superseded(Apply(cfg, s, a), s.threads[a.t].e) {
      NewlySuperseded(cfg, s, a, s.threads[a.t].e);
    }
  }

  lemma SentStream(cfg: Config, s: State, a: Action)
    requires Enabled(cfg, s, a) && (a.Deliver? || a.Fault?) && DiskInv(cfg, s)
    ensures var s' := Apply(cfg, s, a);
      At(s', a.t) && HasStream(s'.threads[a.t]) && s'.threads[a.t].e < |s'.entries|
      && StreamOk(cfg, s', s'.threads[a.t])
  {
    assert StreamOk(cfg, s, s.threads[a.t]);
  }

  lemma PouredStream(cfg: Config, s: State, a: Action)
    requires Enabled(cfg, s, a) && a.Flush? && DiskInv(cfg, s)
    ensures var s' := Apply(cfg, s, a);
      At(s', a.t) && HasStream(s'.threads[a.t]) && s'.threads[a.t].e < |s'.entries|
      && StreamOk(cfg, s', s'.threads[a.t])
  {
    var pc := s.threads[a.t];
    assert StreamOk(cfg, s, pc);
    FlushKeepsEntries(cfg, s, a);
    if Linked(s, pc) {
      PushExtends(s.inodes[pc.ino], pc, a.upto);
    }
  }

  lemma FlushKeepsEntries(cfg: Config, s: State, a: Action)
    requires Enabled(cfg, s, a) && a.Flush?
    ensures var s' := Apply(cfg, s, a); s'.entries == s.entries && s'.dir == s.dir
    ensures forall e: nat | e < |s.entries| :: Superseded(Apply(cfg, s, a), e) == Superseded(s, e)
  {
  }

  /** The acting thread's stream. */
  lemma OwnStreamKept(cfg: Config, s: State, a: Action)
    requires Enabled(cfg, s, a) && LockInv(cfg, s) && YieldInv(cfg, s) && DiskInv(cfg, s) && OnFiles(a)
    requires At(Apply(cfg, s, a), a.t) && HasStream(Apply(cfg, s, a).threads[a.t])
    ensures Apply(cfg, s, a).threads[a.t].e < |Apply(cfg, s, a).entries|
    ensures StreamOk(cfg, Apply(cfg, s, a), Apply(cfg, s, a).threads[a.t])
  {
    if a.Open? {
      OpenedStream(cfg, s, a);
    } else if a.Finish? {
      FinishedStream(cfg, s, a);
    } else if a.Flush? {
      PouredStream(cfg, s, a);
    } else {
      SentStream(cfg, s, a);
    }
  }

  /** Pouring into a file that holds exactly what was flushed before. */
  lemma PushExtends(file: Bytes, pc: Pc, upto: nat)
    requires HasStream(pc) && pc.flushed <= upto <= |pc.sent|
    requires file == pc.sent[..pc.flushed]
    ensures Pushed(file, pc, upto) == pc.sent[..upto]
  {
  }

  lemma StreamsKept(cfg: Config, s: State, a: Action)
    requires Enabled(cfg, s, a) && Disciplined(cfg, s, a) && Inv(cfg, s)
    requires Wf(Apply(cfg, s, a))
    ensures var s' := Apply(cfg, s, a);
      forall t | t in s'.threads && HasStream(s'.threads[t]) :: StreamOk(cfg, s', s'.threads[t])
  {
    var s' := Apply(cfg, s, a);
    forall t | t in s'.threads && HasStream(s'.threads[t])
      ensures StreamOk(cfg, s', s'.threads[t])
    {
      StreamThread(cfg, s, a, t);
      if OnFiles(a) && t == a.t {
        OwnStreamKept(cfg, s, a);
      } else {
        OtherStreamKept(cfg, s, a, t);
      }
    }
  }

  /** A thread with a stream either opened it in this step or had it before. */
  lemma StreamThread(cfg: Config, s: State, a: Action, t: nat)
    requires Enabled(cfg, s, a)
    requires var s' := Apply(cfg, s, a); At(s', t) && HasStream(s'.threads[t])
    ensures if !a.Lookup? && !a.Reap? && t == a.t then OnFiles(a) else At(s, t) && HasStream(s.threads[t])
  {
    if !a.Lookup? && !a.Reap? && t != a.t {
      StepIsLocal(cfg, s, a);
    }
  }

  lemma TmpsKept(cfg: Config, s: State, a: Action)
    requires Enabled(cfg, s, a) && Disciplined(cfg, s, a) && TmpsApart(cfg, s)
    requires Wf(Apply(cfg, s, a))
    ensures TmpsApart(cfg, Apply(cfg, s, a))
  {
    var s' := Apply(cfg, s, a);
    StepRises(cfg, s, a);
    forall t, u | t in s'.threads && u in s'.threads && t != u && OnTmp(s'.threads[t]) && OnTmp(s'.threads[u])
      ensures TmpOf(cfg, s'.entries[s'.threads[t].e]) != TmpOf(cfg, s'.entries[s'.threads[u].e])
    {
      TmpThread(cfg, s, a, t);
      TmpThread(cfg, s, a, u);
    }
  }

  lemma TmpThread(cfg: Config, s: State, a: Action, t: nat)
    requires Enabled(cfg, s, a)
    requires var s' := Apply(cfg, s, a); At(s', t) && OnTmp(s'.threads[t]) && Wf(s')
    ensures At(s, t) && s.threads[t].e == Apply(cfg, s, a).threads[t].e
    ensures TmpOf(cfg, Apply(cfg, s, a).entries[s.threads[t].e]) == TmpOf(cfg, s.entries[s.threads[t].e])
    ensures OnTmp(s.threads[t]) || (a.Open? && a.ok && a.t == t)
  {
    StepRises(cfg, s, a);
    StreamThread(cfg, s, a, t);
    if !a.Lookup? && !a.Reap? {
      if a.t != t {
        StepIsLocal(cfg, s, a);
      }
    }
    assert s.threads[t].e < |s.entries|;
    assert EntryRises(s.entries[s.threads[t].e], Apply(cfg, s, a).entries[s.threads[t].e]);
  }

  // ----- Entries and their files

  lemma SameStanding(cfg: Config, s: State, a: Action, i: nat)
    requires Enabled(cfg, s, a) && LockInv(cfg, s) && i < |s.entries| && !Owns(s, a, i)
    ensures var s' := Apply(cfg, s, a);
      && i < |s'.entries| && s'.entries[i].location == s.entries[i].location
      && s'.entries[i].checksum == s.entries[i].checksum
      && s'.entries[i].completed == s.entries[i].completed && s'.entries[i].cut == s.entries[i].cut
      && s'.entries[i].destroyed == s.entries[i].destroyed
      && InFlight(s', i) == InFlight(s, i)
  {
    assert OwnerOk(cfg, s, i);
    if !a.Lookup? && !a.Reap? {
      StepIsLocal(cfg, s, a);
    }
  }

  /** An owner of the next state is one already. */
  lemma OwnerFalls(cfg: Config, s: State, a: Action, i: nat)
    requires Enabled(cfg, s, a) && i < |s.entries|
    requires i < |Apply(cfg, s, a).entries| && Owner(cfg, Apply(cfg, s, a), i)
    ensures Owner(cfg, s, i)
  {
    var s' := Apply(cfg, s, a);
    StepRises(cfg, s, a);
    assert EntryRises(s.entries[i], s'.entries[i]);
    forall j | i < j < |s.entries|
      ensures s.entries[j].location != s.entries[i].location
    {
      assert EntryRises(s.entries[j], s'.entries[j]);
    }
  }

  lemma OtherFileKept(cfg: Config, s: State, a: Action, i: nat)
    requires Enabled(cfg, s, a) && Inv(cfg, s) && i < |s.entries| && !Owns(s, a, i)
    ensures i < |Apply(cfg, s, a).entries| && FileOk(cfg, Apply(cfg, s, a), i)
  {
    assert FileOk(cfg, s, i);
    SameStanding(cfg, s, a, i);
    if s.entries[i].completed && Owner(cfg, Apply(cfg, s, a), i) {
      OwnerFalls(cfg, s, a, i);
      CompletedStays(cfg, s, a, i);
      SameFileOk(cfg, s, Apply(cfg, s, a), i);
    }
  }

  lemma SameFileOk(cfg: Config, s: State, s': State, i: nat)
    requires i < |s.entries| && i < |s'.entries| && FileOk(cfg, s, i) && Wf(s) && Owner(cfg, s, i)
    requires SameFile(s, s', s.entries[i].location)
    requires s'.entries[i].location == s.entries[i].location
    requires s'.entries[i].checksum == s.entries[i].checksum
    requires s'.entries[i].completed == s.entries[i].completed && s'.entries[i].cut == s.entries[i].cut
    requires InFlight(s', i) == InFlight(s, i)
    ensures FileOk(cfg, s', i)
  {
  }

  lemma CreatedFileOk(cfg: Config, s: State, a: Action)
    requires Enabled(cfg, s, a) && |cfg.loaded| <= |s.entries|
    requires a.Lookup? && Creates(s, a.name, a.checksum)
    ensures var s' := Apply(cfg, s, a);
      |s'.entries| == |s.entries| + 1 && FileOk(cfg, s', |s.entries|)
  {
  }

  // ----- The acting thread's entry

  lemma FinishedFile(cfg: Config, s: State, a: Action)
    requires Enabled(cfg, s, a) && a.Finish? && LockInv(cfg, s) && LocInv(cfg, s) && DiskInv(cfg, s)
    ensures var s', e := Apply(cfg, s, a), s.threads[a.t].e;
      e < |s'.entries| && FileOk(cfg, s', e)
  {
    var e := s.threads[a.t].e;
    EntryCount(cfg, s, a);
    assert OwnerOk(cfg, s, e) && FileOk(cfg, s, e);
    if Apply(cfg, s, a).threads[a.t].ok {
      RenamedFile(cfg, s, a);
    } else {
      UnrenamedFile(cfg, s, a);
    }
  }

  lemma RenamedFile(cfg: Config, s: State, a: Action)
    requires Enabled(cfg, s, a) && a.Finish? && LockInv(cfg, s) && Apply(cfg, s, a).threads[a.t].ok
    ensures var s', e := Apply(cfg, s, a), s.threads[a.t].e;
      e < |s'.entries| && s'.entries[e].location in Files(s') && s'.entries[e].completed && InFlight(s', e)
  {
    assert OwnerOk(cfg, s, s.threads[a.t].e);
  }

  lemma UnrenamedFile(cfg: Config, s: State, a: Action)
    requires Enabled(cfg, s, a) && a.Finish? && LockInv(cfg, s) && !Apply(cfg, s, a).threads[a.t].ok
    ensures Apply(cfg, s, a).entries == s.entries && !s.entries[s.threads[a.t].e].completed
  {
    assert OwnerOk(cfg, s, s.threads[a.t].e);
  }

  /** The file of an owner whose renamed stream is being closed, before and after. */
  lemma ClosingFile(cfg: Config, s: State, a: Action)
    requires Enabled(cfg, s, a) && a.Close? && s.threads[a.t].ok && LockInv(cfg, s) && DiskInv(cfg, s)
    requires Owner(cfg, s, s.threads[a.t].e)
    ensures var s', pc := Apply(cfg, s, a), s.threads[a.t]; var location := s.entries[pc.e].location;
      && location in Files(s') && Files(s')[location] == pc.sent[..a.upto]
      && pc.e >= |cfg.loaded| && Download.Matches(cfg.md5, pc.sent, s.entries[pc.e].checksum)
      && s.entries[pc.e].completed
  {
    var pc := s.threads[a.t];
    assert OwnerOk(cfg, s, pc.e) && FileOk(cfg, s, pc.e);
    assert StreamOk(cfg, s, pc) && !Superseded(s, pc.e);
    PourBehind(cfg, s, a, s.entries[pc.e].location);
    PushExtends(s.inodes[pc.ino], pc, a.upto);
  }

  lemma ClosedFile(cfg: Config, s: State, a: Action)
    requires Enabled(cfg, s, a) && a.Close? && s.threads[a.t].ok && LockInv(cfg, s) && DiskInv(cfg, s)
    ensures var s', e := Apply(cfg, s, a), s.threads[a.t].e;
      e < |s'.entries| && FileOk(cfg, s', e)
  {
    var s', pc := Apply(cfg, s, a), s.threads[a.t];
    assert OwnerOk(cfg, s, pc.e) && FileOk(cfg, s, pc.e) && StreamOk(cfg, s, pc);
    StepFramesMap(cfg, s, a);
    if Owner(cfg, s', pc.e) {
      OwnerFalls(cfg, s, a, pc.e);
      ClosingFile(cfg, s, a);
      ClosedIsKept(cfg, s, a);
    }
  }

  lemma ClosedIsKept(cfg: Config, s: State, a: Action)
    requires Enabled(cfg, s, a) && a.Close? && s.threads[a.t].ok && LockInv(cfg, s)
    requires |cfg.loaded| <= s.threads[a.t].e && |Apply(cfg, s, a).entries| == |s.entries|
    requires Download.Matches(cfg.md5, s.threads[a.t].sent, s.entries[s.threads[a.t].e].checksum)
    ensures var s', pc := Apply(cfg, s, a), s.threads[a.t];
      Kept(cfg, pc.e, s'.entries[pc.e], pc.sent[..a.upto])
  {
    var pc := s.threads[a.t];
    assert pc.sent[..|pc.sent|] == pc.sent;
    assert OwnerOk(cfg, s, pc.e);
  }

  predicate InDownload(s: State, a: Action)
    requires a.Close? ==> At(s, a.t) && s.threads[a.t].Closing?
  {
    a.Open? || a.Deliver? || a.Flush? || a.Fault? || (a.Close? && !s.threads[a.t].ok)
  }

  /** Steps inside the download leave their entry's location alone, or write it while in flight. */
  lemma WrittenFile(cfg: Config, s: State, a: Action)
    requires Enabled(cfg, s, a) && InDownload(s, a)
    requires LockInv(cfg, s) && LocInv(cfg, s) && DiskInv(cfg, s)
    ensures var s', e := Apply(cfg, s, a), s.threads[a.t].e;
      e < |s'.entries| && FileOk(cfg, s', e)
  {
    var e := s.threads[a.t].e;
    TmpApart(cfg, s, e, s.entries[e]);
    if s.entries[e].location !in Touched(cfg, s, a) {
      if !a.Open? {
        assert StreamOk(cfg, s, s.threads[a.t]);
      }
      UntouchedStays(cfg, s, a, s.entries[e].location);
      AsideFile(cfg, s, a);
    } else {
      PouredFile(cfg, s, a);
    }
  }

  lemma AsideFile(cfg: Config, s: State, a: Action)
    requires Enabled(cfg, s, a) && InDownload(s, a) && LockInv(cfg, s) && DiskInv(cfg, s)
    requires SameFile(s, Apply(cfg, s, a), s.entries[s.threads[a.t].e].location)
    ensures var s', e := Apply(cfg, s, a), s.threads[a.t].e;
      e < |s'.entries| && FileOk(cfg, s', e)
  {
    var e := s.threads[a.t].e;
    StepFramesMap(cfg, s, a);
    assert OwnerOk(cfg, s, e) && FileOk(cfg, s, e);
    if Owner(cfg, Apply(cfg, s, a), e) {
      OwnerFalls(cfg, s, a, e);
    }
  }

  lemma PouredFile(cfg: Config, s: State, a: Action)
    requires Enabled(cfg, s, a) && a.Flush? && LockInv(cfg, s) && DiskInv(cfg, s)
    requires !OnTmp(s.threads[a.t]) && Linked(s, s.threads[a.t])
    ensures var s', e := Apply(cfg, s, a), s.threads[a.t].e;
      e < |s'.entries| && FileOk(cfg, s', e)
  {
    var e := s.threads[a.t].e;
    assert OwnerOk(cfg, s, e) && FileOk(cfg, s, e);
    assert StreamOk(cfg, s, s.threads[a.t]);
  }

  /** Lock and flag steps touch no file. */
  lemma FlagFile(cfg: Config, s: State, a: Action)
    requires Enabled(cfg, s, a) && !OnFiles(a) && !a.Lookup? && !a.Reap? && LockInv(cfg, s) && DiskInv(cfg, s)
    ensures var s', e := Apply(cfg, s, a), s.threads[a.t].e;
      e < |s'.entries| && FileOk(cfg, s', e)
  {
    var e := s.threads[a.t].e;
    StepFramesMap(cfg, s, a);
    assert OwnerOk(cfg, s, e) && FileOk(cfg, s, e);
    if Owner(cfg, Apply(cfg, s, a), e) {
      OwnerFalls(cfg, s, a, e);
    }
  }

  lemma ReapedFile(cfg: Config, s: State, a: Action)
    requires Enabled(cfg, s, a) && a.Reap? && DiskInv(cfg, s)
    ensures a.e < |Apply(cfg, s, a).entries| && FileOk(cfg, Apply(cfg, s, a), a.e)
  {
    assert FileOk(cfg, s, a.e);
    if Owner(cfg, Apply(cfg, s, a), a.e) {
      OwnerFalls(cfg, s, a, a.e);
    }
  }

  lemma OwnFileKept(cfg: Config, s: State, a: Action, e: nat)
    requires Enabled(cfg, s, a) && Inv(cfg, s) && Owns(s, a, e)
    ensures e < |Apply(cfg, s, a).entries| && FileOk(cfg, Apply(cfg, s, a), e)
  {
    if a.Reap? { ReapedFile(cfg, s, a); }
    else if a.Finish? { FinishedFile(cfg, s, a); }
    else if a.Close? && s.threads[a.t].ok { ClosedFile(cfg, s, a); }
    else if OnFiles(a) { WrittenFile(cfg, s, a); }
    else { FlagFile(cfg, s, a); }
  }

  lemma EntryKept(cfg: Config, s: State, a: Action, s': State, e: nat)
    requires Enabled(cfg, s, a) && Inv(cfg, s) && s' == Apply(cfg, s, a)
    requires |s'.entries| == |s.entries| + if a.Lookup? && Creates(s, a.name, a.checksum) then 1 else 0
    requires e < |s'.entries|
    ensures FileOk(cfg, s', e)
  {
    if e >= |s.entries| {
      CreatedFileOk(cfg, s, a);
    } else if Owns(s, a, e) {
      OwnFileKept(cfg, s, a, e);
    } else {
      OtherFileKept(cfg, s, a, e);
    }
  }

  lemma FilesKept(cfg: Config, s: State, a: Action, s': State)
    requires Enabled(cfg, s, a) && Inv(cfg, s) && s' == Apply(cfg, s, a)
    requires |s'.entries| == |s.entries| + if a.Lookup? && Creates(s, a.name, a.checksum) then 1 else 0
    ensures forall e | 0 <= e < |s'.entries| :: FileOk(cfg, s', e)
  {
    forall e | 0 <= e < |s'.entries|
      ensures FileOk(cfg, s', e)
    {
      EntryKept(cfg, s, a, s', e);
    }
  }

  lemma KeepsDisk(cfg: Config, s: State, a: Action)
    requires Enabled(cfg, s, a) && Disciplined(cfg, s, a) && Inv(cfg, s)
    ensures DiskInv(cfg, Apply(cfg, s, a))
  {
    var s' := Apply(cfg, s, a);
    assert Pours(a) ==> StreamOk(cfg, s, s.threads[a.t]);
    Effect(cfg, s, a);
    TmpsKept(cfg, s, a);
    StreamsKept(cfg, s, a);
    EntryCount(cfg, s, a);
    FilesKept(cfg, s, a, s');
  }

  /** Every disciplined step keeps the whole invariant. */
  lemma KeepsInv(cfg: Config, s: State, a: Action)
    requires Enabled(cfg, s, a) && Disciplined(cfg, s, a) && Inv(cfg, s)
    ensures Inv(cfg, Apply(cfg, s, a))
  {
    KeepsMap(cfg, s, a);
    KeepsLocks(cfg, s, a);
    KeepsLocs(cfg, s, a);
    KeepsYields(cfg, s, a);
    KeepsDisk(cfg, s, a);
  }
}
