/** What the driver protocol guarantees over whole runs of any number of threads. */
module DriverSafety {
  import opened Wrappers
  import opened DriverCodec
  import opened DriverProtocol
  import opened DriverInvariants
  import Download = DownloadUtil

  /** A manager that has just finished `init`: an available entry for each jar the scan did not delete,
      no thread. Without removal there may be condemned ones among them, already destroyed. */
  ghost predicate Initial(cfg: Config, s: State) {
    && Wf(s) && NoLinks(s) && s.threads == map[] && s.answers == [] && |s.entries| == |cfg.loaded|
    && (forall e | 0 <= e < |s.entries| :: LoadedEntry(s.entries[e]) && Occupies(cfg, s.entries[e]))
    && (forall n | n in s.emap :: s.entries[s.emap[n]].name == n)
    && (forall e | 0 <= e < |s.entries| :: !s.entries[e].condemned <==> IsMapped(s, e))
    && (forall e | 0 <= e < |s.entries| ::
          s.entries[e].location in Files(s) && Files(s)[s.entries[e].location] == cfg.loaded[e])
    && NameInv(cfg, s) && PlaceInv(cfg, s) && JarInv(cfg, s)
  }

  lemma InitialApart(cfg: Config, s: State)
    requires Initial(cfg, s)
    ensures LocInv(cfg, s) && YieldInv(cfg, s) && DirInv(cfg, s)
  {
    forall i: nat, j: nat | i < j < |s.entries|
      ensures s.entries[i].location != s.entries[j].location
    {
      LocationsApart(cfg, s, i, j);
    }
    forall e | 0 <= e < |s.entries|
      ensures s.entries[e].location in s.dir && s.entries[e].completed
    {
      assert s.entries[e].location in Files(s);
    }
  }

  predicate LoadedEntry(entry: Entry) {
    && entry.available && entry.downloaded && entry.completed && entry.owner == None
    && entry.destroyed == entry.condemned && entry.cut == None
  }

  predicate IsMapped(s: State, e: nat) {
    e < |s.entries| && s.entries[e].name in s.emap && s.emap[s.entries[e].name] == e
  }

  lemma InitialInv(cfg: Config, s: State)
    requires Initial(cfg, s)
    ensures Inv(cfg, s)
  {
    InitialApart(cfg, s);
    assert MapInv(s) by {
      assert forall n | n in s.emap :: IsMapped(s, s.emap[n]);
    }
  }

  /** The invariant holds in every state of every disciplined run. */
  lemma RunInv(cfg: Config, ss: seq<State>, acts: seq<Action>, i: nat)
    requires DisciplinedRun(cfg, ss, acts) && Initial(cfg, ss[0]) && i < |ss|
    ensures Inv(cfg, ss[i])
  {
    InitialInv(cfg, ss[0]);
    InvAlong(cfg, ss, acts, i);
  }

  lemma {:induction false} InvAlong(cfg: Config, ss: seq<State>, acts: seq<Action>, i: nat)
    requires DisciplinedRun(cfg, ss, acts) && Inv(cfg, ss[0]) && i < |ss|
    ensures Inv(cfg, ss[i])
  {
    if i > 0 {
      var k := i - 1;
      InvAlong(cfg, ss, acts, k);
      StepInv(cfg, ss, acts, k);
      assert ss[k + 1] == ss[i];
    }
  }

  lemma StepInv(cfg: Config, ss: seq<State>, acts: seq<Action>, k: nat)
    requires DisciplinedRun(cfg, ss, acts) && k < |acts| && Inv(cfg, ss[k])
    ensures Inv(cfg, ss[k + 1])
  {
    KeepsInv(cfg, ss[k], acts[k]);
  }

  /** The map and the locks need no discipline at all. */
  lemma {:induction false} RunControl(cfg: Config, ss: seq<State>, acts: seq<Action>, i: nat)
    requires Run(cfg, ss, acts) && Initial(cfg, ss[0]) && i < |ss|
    ensures MapInv(ss[i]) && LockInv(cfg, ss[i])
  {
    if i == 0 {
      InitialInv(cfg, ss[0]);
    } else {
      RunControl(cfg, ss, acts, i - 1);
      StepControl(cfg, ss, acts, i - 1);
    }
  }

  lemma StepControl(cfg: Config, ss: seq<State>, acts: seq<Action>, k: nat)
    requires Run(cfg, ss, acts) && k < |acts| && MapInv(ss[k]) && LockInv(cfg, ss[k])
    ensures MapInv(ss[k + 1]) && LockInv(cfg, ss[k + 1])
  {
    KeepsMap(cfg, ss[k], acts[k]);
    KeepsLocks(cfg, ss[k], acts[k]);
  }

  /** Locations stay readable in every run of plain requests, disciplined or not. */
  lemma {:induction false} RunNames(cfg: Config, ss: seq<State>, acts: seq<Action>, i: nat)
    requires PlainRun(cfg, ss, acts) && Initial(cfg, ss[0]) && i < |ss|
    ensures NameInv(cfg, ss[i])
  {
    if i > 0 {
      RunNames(cfg, ss, acts, i - 1);
      StepNames(cfg, ss, acts, i - 1);
    }
  }

  lemma StepNames(cfg: Config, ss: seq<State>, acts: seq<Action>, k: nat)
    requires PlainRun(cfg, ss, acts) && k < |acts| && NameInv(cfg, ss[k])
    ensures NameInv(cfg, ss[k + 1])
  {
    KeepsNames(cfg, ss[k], acts[k]);
  }

  /** Locations stay where they were made, and driver files stay some entry's, in every run. */
  lemma {:induction false} RunJars(cfg: Config, ss: seq<State>, acts: seq<Action>, i: nat)
    requires Run(cfg, ss, acts) && Initial(cfg, ss[0]) && i < |ss|
    ensures LocInv(cfg, ss[i]) && JarInv(cfg, ss[i])
  {
    if i == 0 {
      InitialApart(cfg, ss[0]);
    } else {
      RunJars(cfg, ss, acts, i - 1);
      RunControl(cfg, ss, acts, i - 1);
      StepJars(cfg, ss, acts, i - 1);
    }
  }

  lemma StepJars(cfg: Config, ss: seq<State>, acts: seq<Action>, k: nat)
    requires Run(cfg, ss, acts) && k < |acts|
    requires MapInv(ss[k]) && LocInv(cfg, ss[k]) && JarInv(cfg, ss[k])
    ensures LocInv(cfg, ss[k + 1]) && JarInv(cfg, ss[k + 1])
  {
    KeepsLocs(cfg, ss[k], acts[k]);
    KeepsJars(cfg, ss[k], acts[k]);
  }

  /** Entries created apart stay apart, and are on disk exactly when completed, whatever is shared or
      lost elsewhere in the run. */
  lemma {:induction false} RunApart(cfg: Config, ss: seq<State>, acts: seq<Action>, i: nat)
    requires ApartRun(cfg, ss, acts) && Initial(cfg, ss[0]) && i < |ss|
    ensures PlaceInv(cfg, ss[i]) && DirInv(cfg, ss[i])
  {
    if i == 0 {
      InitialApart(cfg, ss[0]);
    } else {
      RunApart(cfg, ss, acts, i - 1);
      RunControl(cfg, ss, acts, i - 1);
      RunJars(cfg, ss, acts, i - 1);
      StepApart(cfg, ss, acts, i - 1);
    }
  }

  lemma StepApart(cfg: Config, ss: seq<State>, acts: seq<Action>, k: nat)
    requires ApartRun(cfg, ss, acts) && k < |acts| && MapInv(ss[k]) && LocInv(cfg, ss[k]) && JarInv(cfg, ss[k])
    requires PlaceInv(cfg, ss[k]) && DirInv(cfg, ss[k])
    ensures PlaceInv(cfg, ss[k + 1]) && DirInv(cfg, ss[k + 1])
  {
    KeepsPlaces(cfg, ss[k], acts[k]);
    KeepsDir(cfg, ss[k], acts[k]);
  }

  /** To create entries apart is more than the discipline asks. */
  lemma ApartIsDisciplined(cfg: Config, s: State, a: Action)
    requires Enabled(cfg, s, a) && a.Lookup? && CreatesApart(cfg, s, a)
    ensures Disciplined(cfg, s, a)
  {
  }

  /** Entries created apart own their locations until they are destroyed with removal. */
  lemma ApartOwns(cfg: Config, s: State, e: nat)
    requires PlaceInv(cfg, s) && YieldInv(cfg, s) && e < |s.entries| && Occupies(cfg, s.entries[e])
    ensures Owner(cfg, s, e)
  {
    forall j | e < j < |s.entries|
      ensures s.entries[j].location != s.entries[e].location
    {
      if s.entries[j].location == s.entries[e].location {
        if cfg.reap {
          GivesWay(cfg, s, e, j);
        } else {
          LocationsApart(cfg, s, e, j);
        }
      }
    }
  }

  // ----- Files

  /** The file of entry `e` is in place and holds the bytes found at start-up or verified bytes. */
  ghost predicate HasFile(cfg: Config, s: State, e: nat)
    requires e < |s.entries|
  {
    s.entries[e].location in Files(s)
    && Good(cfg, e, s.entries[e].checksum, Files(s)[s.entries[e].location])
  }

  /** No close of the entry's own stream fell short, or what it left matches all the same. */
  predicate Sound(cfg: Config, s: State, e: nat)
    requires e < |s.entries|
  {
    s.entries[e].cut.Some? ==> Good(cfg, e, s.entries[e].checksum, s.entries[e].cut.value)
  }

  /** Cache safety. In every state of every disciplined run, whatever other streams were closed short:
      the owner of a location (every uncondemned entry is one) that is available and completed has its
      file exactly when its own close lost nothing that matters; with the status honoured, every
      available entry is completed. */
  lemma AvailableHasFile(cfg: Config, ss: seq<State>, acts: seq<Action>, i: nat, e: nat)
    requires DisciplinedRun(cfg, ss, acts) && Initial(cfg, ss[0]) && i < |ss|
    requires e < |ss[i].entries| && ss[i].entries[e].available
    ensures !ss[i].entries[e].condemned ==> Owner(cfg, ss[i], e)
    ensures Owner(cfg, ss[i], e) && ss[i].entries[e].completed ==> (HasFile(cfg, ss[i], e) <==> Sound(cfg, ss[i], e))
    ensures cfg.honour ==> ss[i].entries[e].completed
  {
    RunInv(cfg, ss, acts, i);
    if !ss[i].entries[e].condemned {
      UncondemnedOwns(cfg, ss[i], e);
    }
    assert FileOk(cfg, ss[i], e) && OwnerOk(cfg, ss[i], e);
  }

  lemma UncondemnedOwns(cfg: Config, s: State, e: nat)
    requires MapInv(s) && YieldInv(cfg, s) && e < |s.entries| && !s.entries[e].condemned
    ensures Owner(cfg, s, e)
  {
    assert Contends(cfg, s, e);
    MappedOwns(cfg, s, e);
  }

  /** When entries are also created apart, an available entry has its file exactly when some download of
      it succeeded and its own close lost nothing that matters. */
  lemma AvailableIffCompleted(cfg: Config, ss: seq<State>, acts: seq<Action>, i: nat, e: nat)
    requires DisciplinedRun(cfg, ss, acts) && ApartRun(cfg, ss, acts) && Initial(cfg, ss[0]) && i < |ss|
    requires e < |ss[i].entries| && ss[i].entries[e].available && Occupies(cfg, ss[i].entries[e])
    ensures HasFile(cfg, ss[i], e) <==> ss[i].entries[e].completed && Sound(cfg, ss[i], e)
  {
    RunInv(cfg, ss, acts, i);
    RunApart(cfg, ss, acts, i);
    ApartOwns(cfg, ss[i], e);
    AvailableHasFile(cfg, ss, acts, i, e);
  }

  /** Where the as-written code, which drops the status, goes wrong: the store that will make an
      entry available is backed by a file exactly when the download it follows returned OK and its close
      lost nothing that matters. */
  lemma DroppedStatusPublishes(cfg: Config, ss: seq<State>, acts: seq<Action>, i: nat)
    requires DisciplinedRun(cfg, ss, acts) && ApartRun(cfg, ss, acts) && Initial(cfg, ss[0]) && i < |acts|
    requires acts[i].StoreDownloaded?
    ensures var e := ss[i].threads[acts[i].t].e;
      e < |ss[i + 1].entries|
      && (HasFile(cfg, ss[i + 1], e) <==> ss[i].threads[acts[i].t].ok && Sound(cfg, ss[i + 1], e))
  {
    RunInv(cfg, ss, acts, i);
    RunInv(cfg, ss, acts, i + 1);
    RunApart(cfg, ss, acts, i + 1);
    StoreFollows(cfg, ss[i], acts[i]);
    StoredIffCompleted(cfg, ss[i + 1], ss[i].threads[acts[i].t].e);
  }

  lemma StoreFollows(cfg: Config, s: State, a: Action)
    requires Enabled(cfg, s, a) && a.StoreDownloaded? && MapInv(s) && LockInv(cfg, s)
    ensures var s', e := Apply(cfg, s, a), s.threads[a.t].e;
      && e < |s'.entries| && s'.entries[e].completed == s.threads[a.t].ok && !s'.entries[e].destroyed
      && !InFlight(s', e)
  {
    assert OwnerOk(cfg, s, s.threads[a.t].e);
  }

  lemma StoredIffCompleted(cfg: Config, s: State, e: nat)
    requires Inv(cfg, s) && PlaceInv(cfg, s) && DirInv(cfg, s) && e < |s.entries|
    requires !s.entries[e].destroyed && !InFlight(s, e)
    ensures HasFile(cfg, s, e) <==> s.entries[e].completed && Sound(cfg, s, e)
  {
    ApartOwns(cfg, s, e);
    assert FileOk(cfg, s, e);
  }

  /** Closing a renamed stream, short or not. Its own file is good afterwards exactly when the bytes
      that were got down match; the file of every other owner is as it was. */
  lemma CloseEffect(cfg: Config, s: State, a: Action)
    requires Inv(cfg, s) && Enabled(cfg, s, a) && a.Close? && s.threads[a.t].ok
    ensures var s', pc := Apply(cfg, s, a), s.threads[a.t];
      && pc.e < |s.entries| && pc.e < |s'.entries|
      && (Owner(cfg, s, pc.e) ==>
            (HasFile(cfg, s', pc.e) <==> Download.Matches(cfg.md5, pc.sent[..a.upto], s.entries[pc.e].checksum)))
    ensures forall i: nat | i < |s.entries| && i != s.threads[a.t].e && Owner(cfg, s, i) && s.entries[i].completed ::
      SameFile(s, Apply(cfg, s, a), s.entries[i].location)
  {
    StepFramesMap(cfg, s, a);
    if Owner(cfg, s, s.threads[a.t].e) {
      ClosingFile(cfg, s, a);
      StepRises(cfg, s, a);
    }
    forall i: nat | i < |s.entries| && i != s.threads[a.t].e && Owner(cfg, s, i) && s.entries[i].completed
      ensures SameFile(s, Apply(cfg, s, a), s.entries[i].location)
    {
      CompletedStays(cfg, s, a, i);
    }
  }

  /** Destroying a condemned entry takes no other entry's file away (an entry destroyed with removal has
      none). */
  lemma ReapSparesOthers(cfg: Config, ss: seq<State>, acts: seq<Action>, i: nat, e: nat)
    requires ApartRun(cfg, ss, acts) && Initial(cfg, ss[0]) && i < |acts|
    requires acts[i].Reap? && e < |ss[i].entries| && e != acts[i].e && Occupies(cfg, ss[i].entries[e])
    ensures var location := ss[i].entries[e].location;
      && (location in Files(ss[i + 1]) <==> location in Files(ss[i]))
      && (location in Files(ss[i]) ==> Files(ss[i + 1])[location] == Files(ss[i])[location])
  {
    RunApart(cfg, ss, acts, i);
    ReapSpares(cfg, ss[i], acts[i], e);
  }

  lemma ReapSpares(cfg: Config, s: State, a: Action, e: nat)
    requires Enabled(cfg, s, a) && a.Reap? && PlaceInv(cfg, s)
    requires e < |s.entries| && e != a.e && Occupies(cfg, s.entries[e])
    ensures var location, s' := s.entries[e].location, Apply(cfg, s, a);
      && (location in Files(s') <==> location in Files(s))
      && (location in Files(s) ==> Files(s')[location] == Files(s)[location])
  {
    LocationsApart(cfg, s, e, a.e);
  }

  // ----- The map

  /** The mapped entry is the only uncondemned entry of its name. */
  lemma MappedIsOnlyUncondemned(cfg: Config, ss: seq<State>, acts: seq<Action>, i: nat, e: nat)
    requires Run(cfg, ss, acts) && Initial(cfg, ss[0]) && i < |ss| && e < |ss[i].entries|
    ensures !ss[i].entries[e].condemned <==> IsMapped(ss[i], e)
  {
    RunControl(cfg, ss, acts, i);
  }

  /** Flags only rise, identities never change, answers are never taken back. */
  lemma {:induction false} RunRises(cfg: Config, ss: seq<State>, acts: seq<Action>, i: nat, j: nat)
    requires Run(cfg, ss, acts) && i <= j < |ss|
    ensures Rises(ss[i], ss[j])
  {
    if i < j {
      RunRises(cfg, ss, acts, i, j - 1);
      StepRises(cfg, ss[j - 1], acts[j - 1]);
      RisesTransitive(ss[i], ss[j - 1], ss[j]);
    }
  }

  lemma RisesTransitive(a: State, b: State, c: State)
    requires Rises(a, b) && Rises(b, c)
    ensures Rises(a, c)
  {
    forall e | 0 <= e < |a.entries|
      ensures EntryRises(a.entries[e], c.entries[e])
    {
      assert EntryRises(a.entries[e], b.entries[e]) && EntryRises(b.entries[e], c.entries[e]);
    }
  }

  /** Once unmapped, condemned for the rest of the run and never mapped again. */
  lemma CondemnedForever(cfg: Config, ss: seq<State>, acts: seq<Action>, i: nat, j: nat, e: nat)
    requires Run(cfg, ss, acts) && Initial(cfg, ss[0]) && i <= j < |ss| && e < |ss[i].entries|
    requires !IsMapped(ss[i], e)
    ensures e < |ss[j].entries| && ss[j].entries[e].condemned && !IsMapped(ss[j], e)
  {
    MappedIsOnlyUncondemned(cfg, ss, acts, i, e);
    RunRises(cfg, ss, acts, i, j);
    assert EntryRises(ss[i].entries[e], ss[j].entries[e]);
    MappedIsOnlyUncondemned(cfg, ss, acts, j, e);
  }

  /** What keeps an entry alive is the map and the calls under way, nothing else: it can be destroyed exactly
      when neither refers to it. */
  lemma ReapableIffUnreferenced(cfg: Config, ss: seq<State>, acts: seq<Action>, i: nat, e: nat)
    requires Run(cfg, ss, acts) && Initial(cfg, ss[0]) && i < |ss|
    requires e < |ss[i].entries| && !ss[i].entries[e].destroyed
    ensures Enabled(cfg, ss[i], Reap(e)) <==>
      !IsMapped(ss[i], e) && forall t | At(ss[i], t) :: Held(ss[i], t) != e
  {
    RunControl(cfg, ss, acts, i);
    var s := ss[i];
    forall t | At(s, t)
      ensures Held(s, t) == s.threads[t].e
    {
    }
    if e in s.emap.Values {
      var n :| n in s.emap && s.emap[n] == e;
      assert IsMapped(s, e);
    }
  }

  /** Available implies downloaded. */
  lemma AvailableIsDownloaded(cfg: Config, ss: seq<State>, acts: seq<Action>, i: nat, e: nat)
    requires Run(cfg, ss, acts) && Initial(cfg, ss[0]) && i < |ss| && e < |ss[i].entries|
    ensures ss[i].entries[e].available ==> ss[i].entries[e].downloaded
  {
    RunControl(cfg, ss, acts, i);
    assert OwnerOk(cfg, ss[i], e);
  }

  // ----- One download for each entry

  /** The step puts the file of entry `e` in place. */
  predicate Completes(cfg: Config, s: State, a: Action, e: nat)
    requires Enabled(cfg, s, a)
  {
    && a.Finish? && s.threads[a.t].e == e && a.renameOk
    && Download.Matches(cfg.md5, s.threads[a.t].sent, s.entries[e].checksum)
    && TmpOf(cfg, s.entries[e]) in s.dir
  }

  /** Over all interleavings, disciplined or not, each entry completes at most one download. */
  lemma SingleDownload(cfg: Config, ss: seq<State>, acts: seq<Action>, i: nat, j: nat, e: nat)
    requires Run(cfg, ss, acts) && Initial(cfg, ss[0]) && i < |acts| && j < |acts|
    requires Completes(cfg, ss[i], acts[i], e) && Completes(cfg, ss[j], acts[j], e)
    ensures i == j
  {
    if i < j {
      CompletedOnce(cfg, ss, acts, i, j, e);
    } else if j < i {
      CompletedOnce(cfg, ss, acts, j, i, e);
    }
  }

  lemma CompletedOnce(cfg: Config, ss: seq<State>, acts: seq<Action>, i: nat, j: nat, e: nat)
    requires Run(cfg, ss, acts) && Initial(cfg, ss[0]) && i < j < |acts|
    requires Completes(cfg, ss[i], acts[i], e)
    ensures !Completes(cfg, ss[j], acts[j], e)
  {
    RunControl(cfg, ss, acts, j);
    RunRises(cfg, ss, acts, i + 1, j);
    assert EntryRises(ss[i + 1].entries[e], ss[j].entries[e]);
    assert OwnerOk(cfg, ss[j], e);
  }

  // ----- Answers

  /** The entry a lookup settles on: the one it answers from, or the one its thread waits for. */
  function Picked(s': State, t: nat): nat
    requires t !in s'.threads ==> s'.answers != []
  {
    if t in s'.threads then Held(s', t) else LastAnswer(s').e
  }

  lemma LookupPicks(cfg: Config, s: State, a: Action)
    requires Enabled(cfg, s, a) && a.Lookup? && MapInv(s)
    ensures var s' := Apply(cfg, s, a);
      && (a.t !in s'.threads ==> s'.answers != [])
      && a.name in s'.emap && s'.emap[a.name] == Picked(s', a.t) < |s'.entries|
      && s'.entries[Picked(s', a.t)].name == a.name
      && s'.entries[Picked(s', a.t)].checksum == a.checksum
  {
  }

  predicate OtherChecksum(a: Action, name: string, checksum: string) {
    a.Lookup? && a.name == name && a.checksum != checksum
  }

  lemma MapEntryStays(cfg: Config, s: State, a: Action, name: string, checksum: string)
    requires Enabled(cfg, s, a) && MapInv(s) && !OtherChecksum(a, name, checksum)
    requires name in s.emap && s.entries[s.emap[name]].checksum == checksum
    ensures var s' := Apply(cfg, s, a);
      name in s'.emap && s'.emap[name] == s.emap[name]
  {
    if !a.Lookup? && !a.Reap? {
      StepIsLocal(cfg, s, a);
    }
  }

  lemma MappingStays(cfg: Config, s: State, a: Action, name: string, checksum: string)
    requires Enabled(cfg, s, a) && MapInv(s) && !OtherChecksum(a, name, checksum)
    requires name in s.emap && s.entries[s.emap[name]].checksum == checksum
    ensures var s' := Apply(cfg, s, a);
      name in s'.emap && s'.emap[name] == s.emap[name] && s.emap[name] < |s'.entries|
      && s'.entries[s.emap[name]].checksum == checksum
  {
    MapEntryStays(cfg, s, a, name, checksum);
    StepRises(cfg, s, a);
    assert EntryRises(s.entries[s.emap[name]], Apply(cfg, s, a).entries[s.emap[name]]);
  }

  /** The name is mapped to entry `e`, which has that checksum. */
  predicate MappedTo(s: State, name: string, checksum: string, e: nat) {
    name in s.emap && s.emap[name] == e < |s.entries| && s.entries[e].checksum == checksum
  }

  lemma {:induction false} MappingStaysOver(
    cfg: Config, ss: seq<State>, acts: seq<Action>, i: nat, j: nat, name: string, checksum: string, e: nat)
    requires Run(cfg, ss, acts) && Initial(cfg, ss[0]) && i <= j < |ss|
    requires forall k | i <= k < j :: !OtherChecksum(acts[k], name, checksum)
    requires MappedTo(ss[i], name, checksum, e)
    ensures MappedTo(ss[j], name, checksum, e)
  {
    if i < j {
      MappingStaysOver(cfg, ss, acts, i, j - 1, name, checksum, e);
      RunControl(cfg, ss, acts, j - 1);
      MappingStaysAt(cfg, ss, acts, j - 1, name, checksum, e);
    }
  }

  lemma MappingStaysAt(
    cfg: Config, ss: seq<State>, acts: seq<Action>, k: nat, name: string, checksum: string, e: nat)
    requires Run(cfg, ss, acts) && k < |acts| && MapInv(ss[k])
    requires !OtherChecksum(acts[k], name, checksum) && MappedTo(ss[k], name, checksum, e)
    ensures MappedTo(ss[k + 1], name, checksum, e)
  {
    MappingStays(cfg, ss[k], acts[k], name, checksum);
  }

  /** Two requests for the same driver, with no request for that name under another checksum between
      them, settle on the same entry. */
  lemma SameRequestSameEntry(cfg: Config, ss: seq<State>, acts: seq<Action>, i: nat, j: nat)
    requires Run(cfg, ss, acts) && Initial(cfg, ss[0]) && i < j < |acts|
    requires acts[i].Lookup? && acts[j].Lookup?
    requires acts[j].name == acts[i].name && acts[j].checksum == acts[i].checksum
    requires forall k | i < k < j :: !OtherChecksum(acts[k], acts[i].name, acts[i].checksum)
    ensures acts[i].t !in ss[i + 1].threads ==> ss[i + 1].answers != []
    ensures acts[j].t !in ss[j + 1].threads ==> ss[j + 1].answers != []
    ensures Picked(ss[i + 1], acts[i].t) == Picked(ss[j + 1], acts[j].t)
  {
    RunControl(cfg, ss, acts, i);
    LookupPicks(cfg, ss[i], acts[i]);
    MappingStaysOver(cfg, ss, acts, i + 1, j, acts[i].name, acts[i].checksum, Picked(ss[i + 1], acts[i].t));
    RunControl(cfg, ss, acts, j);
    LookupPicks(cfg, ss[j], acts[j]);
    MappingStays(cfg, ss[j], acts[j], acts[i].name, acts[i].checksum);
  }

  /** The entry a thread inside a call references. */
  function Held(s: State, t: nat): nat {
    if t in s.threads then s.threads[t].e else 0
  }

  function LastAnswer(s: State): Answer
    requires s.answers != []
  {
    s.answers[|s.answers| - 1]
  }

  /** A thread keeps the entry it settled on until it returns, and its answer names that entry. */
  lemma ThreadAnswersItsEntry(cfg: Config, s: State, a: Action, t: nat)
    requires Enabled(cfg, s, a) && At(s, t)
    ensures var s' := Apply(cfg, s, a);
      if At(s', t) then Held(s', t) == Held(s, t)
      else s'.answers == s.answers || (s'.answers != [] && LastAnswer(s').e == Held(s, t))
  {
    if !a.Lookup? && !a.Reap? && a.t != t {
      StepIsLocal(cfg, s, a);
    }
  }

  ghost predicate AnswerOk(s: State, answer: Answer) {
    && answer.e < |s.entries|
    && answer.name == s.entries[answer.e].name && answer.checksum == s.entries[answer.e].checksum
    && answer.location == s.entries[answer.e].location
  }

  /** Every answer ever given is its entry's location, so requests that settle on one entry get one
      location. */
  lemma {:induction false} AnswersAgree(cfg: Config, ss: seq<State>, acts: seq<Action>, i: nat, k: nat)
    requires Run(cfg, ss, acts) && Initial(cfg, ss[0]) && i < |ss| && k < |ss[i].answers|
    ensures AnswerOk(ss[i], ss[i].answers[k])
  {
    if i > 0 {
      StepRises(cfg, ss[i - 1], acts[i - 1]);
      if k < |ss[i - 1].answers| {
        AnswersAgree(cfg, ss, acts, i - 1, k);
        var e := ss[i].answers[k].e;
        assert EntryRises(ss[i - 1].entries[e], ss[i].entries[e]);
      } else {
        NewAnswer(cfg, ss[i - 1], acts[i - 1]);
      }
    }
  }

  /** And it is the location of a driver with the entry's name and checksum. */
  lemma AnswerNamesDriver(cfg: Config, ss: seq<State>, acts: seq<Action>, i: nat, k: nat)
    requires PlainRun(cfg, ss, acts) && Initial(cfg, ss[0]) && i < |ss| && k < |ss[i].answers|
    ensures var answer := ss[i].answers[k];
      && PathJar(cfg.dir, answer.location).Some?
      && PathJar(cfg.dir, answer.location).value.name == answer.name
      && PathJar(cfg.dir, answer.location).value.checksum == answer.checksum
  {
    RunNames(cfg, ss, acts, i);
    AnswersAgree(cfg, ss, acts, i, k);
  }

  /** Entry agreement: every entry's location stands for its own name, checksum and timestamp. */
  lemma EntriesAgree(cfg: Config, ss: seq<State>, acts: seq<Action>, i: nat, e: nat)
    requires PlainRun(cfg, ss, acts) && Initial(cfg, ss[0]) && i < |ss| && e < |ss[i].entries|
    ensures PathJar(cfg.dir, ss[i].entries[e].location) == Some(JarOf(ss[i].entries[e]))
  {
    RunNames(cfg, ss, acts, i);
  }

  /** State `k` is the one in which the request made by step `i` has just been answered. */
  ghost predicate Serves(cfg: Config, ss: seq<State>, acts: seq<Action>, i: nat, k: nat)
    requires Run(cfg, ss, acts)
  {
    && i < k < |ss| && acts[i].Lookup? && !At(ss[k], acts[i].t)
    && Inside(ss, i, k - 1, acts[i].t)
    && ss[k].answers != ss[k - 1].answers
  }

  ghost predicate SameHeldAt(ss: seq<State>, m: nat, t: nat) {
    m + 1 < |ss| && Held(ss[m + 1], t) == Held(ss[m], t)
  }

  lemma StepKeepsHeld(cfg: Config, ss: seq<State>, acts: seq<Action>, m: nat, t: nat)
    requires Run(cfg, ss, acts) && m < |acts| && At(ss[m], t) && At(ss[m + 1], t)
    ensures SameHeldAt(ss, m, t)
  {
    ThreadAnswersItsEntry(cfg, ss[m], acts[m], t);
  }

  lemma {:induction false} HeldOver(ss: seq<State>, i: nat, k: nat, t: nat)
    requires i < k < |ss| && forall m: nat | i < m < k :: SameHeldAt(ss, m, t)
    ensures Held(ss[k], t) == Held(ss[i + 1], t)
  {
    if i + 1 < k {
      assert SameHeldAt(ss, k - 1, t);
      HeldOver(ss, i, k - 1, t);
    }
  }

  /** The thread is inside its call in all states after `i` up to `k`. */
  ghost predicate Inside(ss: seq<State>, i: nat, k: nat, t: nat) {
    k < |ss| && forall l | i < l <= k :: At(ss[l], t)
  }

  lemma KeepsItsEntry(cfg: Config, ss: seq<State>, acts: seq<Action>, i: nat, k: nat, t: nat)
    requires Run(cfg, ss, acts) && i < k < |ss| && Inside(ss, i, k, t)
    ensures Held(ss[k], t) == Held(ss[i + 1], t)
  {
    forall m: nat | i < m < k
      ensures SameHeldAt(ss, m, t)
    {
      StepKeepsHeld(cfg, ss, acts, m, t);
    }
    HeldOver(ss, i, k, t);
  }

  lemma ServedFromPicked(cfg: Config, ss: seq<State>, acts: seq<Action>, i: nat, k: nat)
    requires Run(cfg, ss, acts) && Initial(cfg, ss[0]) && Serves(cfg, ss, acts, i, k)
    ensures ss[k].answers != [] && (acts[i].t !in ss[i + 1].threads ==> ss[i + 1].answers != [])
    ensures LastAnswer(ss[k]).e == Picked(ss[i + 1], acts[i].t)
  {
    PicksSomething(cfg, ss, acts, i);
    if i + 1 < k {
      ServedLater(cfg, ss, acts, i, k, acts[i].t);
    } else {
      GainsAnswer(cfg, ss, acts, i);
    }
  }

  lemma PicksSomething(cfg: Config, ss: seq<State>, acts: seq<Action>, i: nat)
    requires Run(cfg, ss, acts) && Initial(cfg, ss[0]) && i < |acts| && acts[i].Lookup?
    ensures acts[i].t !in ss[i + 1].threads ==> ss[i + 1].answers != []
  {
    RunControl(cfg, ss, acts, i);
    LookupPicks(cfg, ss[i], acts[i]);
  }

  lemma GainsAnswer(cfg: Config, ss: seq<State>, acts: seq<Action>, m: nat)
    requires Run(cfg, ss, acts) && m < |acts| && ss[m + 1].answers != ss[m].answers
    ensures ss[m + 1].answers != []
  {
    NewAnswer(cfg, ss[m], acts[m]);
  }

  lemma ServedLater(cfg: Config, ss: seq<State>, acts: seq<Action>, i: nat, k: nat, t: nat)
    requires Run(cfg, ss, acts) && i + 1 < k < |ss| && Inside(ss, i, k - 1, t)
    requires At(ss[k - 1], t) && !At(ss[k], t) && ss[k].answers != ss[k - 1].answers
    ensures ss[k].answers != [] && LastAnswer(ss[k]).e == Held(ss[i + 1], t)
  {
    KeepsItsEntry(cfg, ss, acts, i, k - 1, t);
    AnswersFromHeld(cfg, ss, acts, k - 1, t);
  }

  lemma AnswersFromHeld(cfg: Config, ss: seq<State>, acts: seq<Action>, m: nat, t: nat)
    requires Run(cfg, ss, acts) && m < |acts| && At(ss[m], t) && !At(ss[m + 1], t)
    requires ss[m + 1].answers != ss[m].answers
    ensures ss[m + 1].answers != [] && LastAnswer(ss[m + 1]).e == Held(ss[m], t)
  {
    ThreadAnswersItsEntry(cfg, ss[m], acts[m], t);
  }

  /** Repeated requests for the same driver, with no request for that name under another checksum in
      between, are answered with the same location, whatever else is interleaved. */
  lemma SameRequestSameLocation(
    cfg: Config, ss: seq<State>, acts: seq<Action>, i: nat, k: nat, j: nat, l: nat)
    requires Run(cfg, ss, acts) && Initial(cfg, ss[0]) && i < j
    requires Serves(cfg, ss, acts, i, k) && Serves(cfg, ss, acts, j, l)
    requires acts[j].name == acts[i].name && acts[j].checksum == acts[i].checksum
    requires forall m | i < m < j :: !OtherChecksum(acts[m], acts[i].name, acts[i].checksum)
    ensures ss[k].answers != [] && ss[l].answers != []
    ensures LastAnswer(ss[k]).location == LastAnswer(ss[l]).location
  {
    SameRequestSameEntry(cfg, ss, acts, i, j);
    ServedFromPicked(cfg, ss, acts, i, k);
    ServedFromPicked(cfg, ss, acts, j, l);
    SameEntrySameLocation(cfg, ss, acts, k, l);
  }

  lemma SameEntrySameLocation(cfg: Config, ss: seq<State>, acts: seq<Action>, k: nat, l: nat)
    requires Run(cfg, ss, acts) && Initial(cfg, ss[0]) && k < |ss| && l < |ss|
    requires ss[k].answers != [] && ss[l].answers != [] && LastAnswer(ss[k]).e == LastAnswer(ss[l]).e
    ensures LastAnswer(ss[k]).location == LastAnswer(ss[l]).location
  {
    AnswersAgree(cfg, ss, acts, k, |ss[k].answers| - 1);
    AnswersAgree(cfg, ss, acts, l, |ss[l].answers| - 1);
    var e := LastAnswer(ss[k]).e;
    if k <= l {
      RunRises(cfg, ss, acts, k, l);
      assert EntryRises(ss[k].entries[e], ss[l].entries[e]);
    } else {
      RunRises(cfg, ss, acts, l, k);
      assert EntryRises(ss[l].entries[e], ss[k].entries[e]);
    }
  }

  /** Whatever is interleaved, the location a request is answered with parses to the name and the
      checksum that were requested. */
  lemma AnswerNamesRequest(cfg: Config, ss: seq<State>, acts: seq<Action>, i: nat, k: nat)
    requires PlainRun(cfg, ss, acts) && Initial(cfg, ss[0]) && Serves(cfg, ss, acts, i, k)
    ensures ss[k].answers != []
    ensures var jar := PathJar(cfg.dir, LastAnswer(ss[k]).location);
      jar.Some? && jar.value.name == acts[i].name && jar.value.checksum == acts[i].checksum
  {
    ServedFromPicked(cfg, ss, acts, i, k);
    LastNamesItsEntry(cfg, ss, acts, k);
    PickedIsAsked(cfg, ss, acts, i, k);
  }

  lemma LastNamesItsEntry(cfg: Config, ss: seq<State>, acts: seq<Action>, k: nat)
    requires PlainRun(cfg, ss, acts) && Initial(cfg, ss[0]) && k < |ss| && ss[k].answers != []
    ensures var jar, e := PathJar(cfg.dir, LastAnswer(ss[k]).location), LastAnswer(ss[k]).e;
      && e < |ss[k].entries| && jar.Some?
      && jar.value.name == ss[k].entries[e].name && jar.value.checksum == ss[k].entries[e].checksum
  {
    AnswerNamesDriver(cfg, ss, acts, k, |ss[k].answers| - 1);
    AnswersAgree(cfg, ss, acts, k, |ss[k].answers| - 1);
  }

  lemma PickedIsAsked(cfg: Config, ss: seq<State>, acts: seq<Action>, i: nat, k: nat)
    requires Run(cfg, ss, acts) && Initial(cfg, ss[0]) && i < |acts| && acts[i].Lookup? && i < k < |ss|
    ensures acts[i].t !in ss[i + 1].threads ==> ss[i + 1].answers != []
    ensures var e := Picked(ss[i + 1], acts[i].t);
      && e < |ss[k].entries|
      && ss[k].entries[e].name == acts[i].name && ss[k].entries[e].checksum == acts[i].checksum
  {
    RunControl(cfg, ss, acts, i);
    LookupPicks(cfg, ss[i], acts[i]);
    RunRises(cfg, ss, acts, i + 1, k);
    var e := Picked(ss[i + 1], acts[i].t);
    assert EntryRises(ss[i + 1].entries[e], ss[k].entries[e]);
  }

  /** The entry an answering step answers from. */
  predicate Answers(cfg: Config, s: State, a: Action)
    requires Enabled(cfg, s, a)
  {
    Apply(cfg, s, a).answers != s.answers
  }

  lemma NewAnswer(cfg: Config, s: State, a: Action)
    requires Enabled(cfg, s, a) && Answers(cfg, s, a)
    ensures var s' := Apply(cfg, s, a);
      |s'.answers| == |s.answers| + 1 && AnswerOk(s', s'.answers[|s.answers|])
  {
  }

  /** With the status honoured, a location is only ever returned while its file is in place: good,
      unless its own close fell short, and still this entry's, unless another has been created at the
      very same location since. */
  lemma AnswerHasFile(cfg: Config, ss: seq<State>, acts: seq<Action>, i: nat)
    requires DisciplinedRun(cfg, ss, acts) && Initial(cfg, ss[0]) && i < |acts| && cfg.honour
    requires Answers(cfg, ss[i], acts[i])
    ensures ss[i + 1].answers != []
    ensures var e := LastAnswer(ss[i + 1]).e;
      e < |ss[i + 1].entries|
      && (Owner(cfg, ss[i + 1], e) ==> (HasFile(cfg, ss[i + 1], e) <==> Sound(cfg, ss[i + 1], e)))
  {
    RunInv(cfg, ss, acts, i);
    NewAnswer(cfg, ss[i], acts[i]);
    var e := LastAnswer(ss[i + 1]).e;
    AnsweredIsAvailable(cfg, ss[i], acts[i], e);
    AvailableHasFile(cfg, ss, acts, i + 1, e);
  }

  lemma AnsweredIsAvailable(cfg: Config, s: State, a: Action, e: nat)
    requires Enabled(cfg, s, a) && Answers(cfg, s, a) && MapInv(s) && LockInv(cfg, s)
    requires var s' := Apply(cfg, s, a);
      |s'.answers| == |s.answers| + 1 && e == s'.answers[|s.answers|].e
    ensures var s' := Apply(cfg, s, a);
      e < |s'.entries| && s'.entries[e].available && !s'.entries[e].destroyed
  {
    if a.Leave? {
      assert OwnerOk(cfg, s, s.threads[a.t].e);
    }
  }

  // ----- The temporary path

  predicate StreamsFor(s: State, t: nat, entry: Entry) {
    && t in s.threads && OnTmp(s.threads[t]) && s.threads[t].e < |s.entries|
    && s.entries[s.threads[t].e].name == entry.name
    && s.entries[s.threads[t].e].checksum == entry.checksum
  }

  /** Opening is undisciplined exactly when another thread is streaming for the same name and
      checksum, which takes a second entry for that pair. */
  lemma TmpSharedIff(cfg: Config, ss: seq<State>, acts: seq<Action>, i: nat, e: nat)
    requires PlainRun(cfg, ss, acts) && Initial(cfg, ss[0]) && i < |ss| && e < |ss[i].entries|
    ensures var s := ss[i];
      !TmpUnused(cfg, s, TmpOf(cfg, s.entries[e])) <==> exists t :: StreamsFor(s, t, s.entries[e])
  {
    RunNames(cfg, ss, acts, i);
    RunControl(cfg, ss, acts, i);
    var s := ss[i];
    forall t | t in s.threads && OnTmp(s.threads[t])
      ensures TmpOf(cfg, s.entries[s.threads[t].e]) == TmpOf(cfg, s.entries[e])
         <==> StreamsFor(s, t, s.entries[e])
    {
      PlainChecksum(cfg, s, e);
      PlainChecksum(cfg, s, s.threads[t].e);
      TmpPathInjective(cfg.dir, s.entries[s.threads[t].e].name, s.entries[s.threads[t].e].checksum,
                       s.entries[e].name, s.entries[e].checksum);
    }
  }

  lemma PlainChecksum(cfg: Config, s: State, e: nat)
    requires NameInv(cfg, s) && e < |s.entries|
    ensures !HasUnderscore(s.entries[e].checksum)
  {
    var location := s.entries[e].location;
    var _ := ParseDecomposes(Repaired, location[|cfg.dir| + 1..]);
  }

  /** While no (name, checksum) pair has two entries, temporary paths take care of themselves. */
  lemma DistinctPairsNeverShare(cfg: Config, ss: seq<State>, acts: seq<Action>, i: nat, a: Action)
    requires PlainRun(cfg, ss, acts) && Initial(cfg, ss[0]) && i < |ss|
    requires Enabled(cfg, ss[i], a) && a.Open? && PairsDistinct(ss[i])
    ensures Disciplined(cfg, ss[i], a)
  {
    RunControl(cfg, ss, acts, i);
    TmpSharedIff(cfg, ss, acts, i, ss[i].threads[a.t].e);
    NobodyElseStreams(cfg, ss[i], a);
  }

  ghost predicate PairsDistinct(s: State) {
    forall e, f | 0 <= e < f < |s.entries| ::
      s.entries[e].name != s.entries[f].name || s.entries[e].checksum != s.entries[f].checksum
  }

  lemma NobodyElseStreams(cfg: Config, s: State, a: Action)
    requires LockInv(cfg, s) && Enabled(cfg, s, a) && a.Open? && PairsDistinct(s)
    ensures forall t :: !StreamsFor(s, t, s.entries[s.threads[a.t].e])
  {
    forall t | t in s.threads && OnTmp(s.threads[t])
      ensures !StreamsFor(s, t, s.entries[s.threads[a.t].e])
    {
      HoldersApart(cfg, s, a.t, t);
    }
  }
}
