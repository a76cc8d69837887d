/** Closing the circle: a manager that has run `init` over a directory is in a state the protocol's runs
    start from, for every directory of plain files, and its map and files are what `init` leaves. */
module DriverBoot {
  import opened Wrappers
  import opened FsUtil
  import opened DriverCodec
  import opened DriverScan
  import opened DriverCalls
  import opened DriverProtocol
  import opened DriverInvariants
  import opened DriverSafety
  import opened DriverSolo
  import opened DriverRestart
  import Md5

  /** The files a start-up takes away: with removal also those of the entries it condemned. */
  function Gone(cfg: Config, items: seq<Item>): set<string> {
    var scan := ScanAll(FRESH, items);
    if cfg.reap then scan.Removed() else scan.deleted
  }

  /** Entry `e` is the one the scan made for a listed driver: mapped, or condemned for a newer one and
      destroyed at once, as nothing else holds it. */
  ghost predicate BootedEntry(cfg: Config, s: State, live: map<string, EntryView>, item: Item, e: nat)
    requires Wf(s) && e < |s.entries| == |cfg.loaded|
  {
    var entry := s.entries[e];
    && item.kind == Driver(JarOf(entry)) && item.path == entry.location
    && LoadedEntry(entry) && (!entry.condemned <==> IsMapped(s, e))
    && (entry.name in live ==> (IsMapped(s, e) <==> live[entry.name].location == entry.location))
    && entry.location in Files(s) && cfg.loaded[e] == Files(s)[entry.location]
  }

  /** `s` is the state of a manager that has run `init` over `files`, listed as `items`: it holds one
      entry for each driver left on disk, in the order listed; `from` says where. */
  ghost predicate Booted(cfg: Config, s: State, items: seq<Item>, files: map<string, Bytes>, from: seq<nat>) {
    && Wf(s) && NoLinks(s) && s.threads == map[] && s.answers == []
    && Files(s) == files - Gone(cfg, items)
    && (forall n | n in s.emap :: s.entries[s.emap[n]].name == n)
    && |s.entries| == |cfg.loaded| == |from|
    && (forall i, j | 0 <= i < j < |from| :: from[i] < from[j])
    && (forall e | 0 <= e < |from| ::
          from[e] < |items| && BootedEntry(cfg, s, ScanAll(FRESH, items).live, items[from[e]], e))
    && (forall k | 0 <= k < |items| && items[k].kind.Driver? && items[k].path !in Gone(cfg, items) :: k in from)
  }

  /** A booted manager is in an initial state: all guarantees hold for its next run, with or without
      removal and with either codec, provided the driver directory holds plain files only. */
  lemma BootIsInitial(codec: Codec, cfg: Config, s: State, items: seq<Item>, files: map<string, Bytes>, from: seq<nat>)
    requires Lists(codec, cfg.dir, items, files.Keys) && Booted(cfg, s, items, files, from)
    requires forall p | p in files :: IsChild(cfg.dir, p)
    ensures Initial(cfg, s) && StampsRise(s)
  {
    BootedEntries(codec, cfg, s, items, files, from);
    BootedPlaces(codec, cfg, s, items, files, from);
    assert JarInv(cfg, s) by {
      forall p | p in s.dir && PathJar(cfg.dir, p).Some?
        ensures exists e: nat :: IsAt(cfg, s, e, p)
      {
        BootedOwner(codec, cfg, s, items, files, from, p);
      }
    }
  }

  lemma BootedEntries(codec: Codec, cfg: Config, s: State, items: seq<Item>, files: map<string, Bytes>, from: seq<nat>)
    requires Lists(codec, cfg.dir, items, files.Keys) && Booted(cfg, s, items, files, from)
    ensures NameInv(cfg, s)
    ensures forall e | 0 <= e < |s.entries| ::
      && LoadedEntry(s.entries[e]) && Occupies(cfg, s.entries[e]) && (!s.entries[e].condemned <==> IsMapped(s, e))
      && s.entries[e].location in Files(s) && Files(s)[s.entries[e].location] == cfg.loaded[e]
  {
    forall e | 0 <= e < |s.entries|
      ensures LoadedEntry(s.entries[e]) && (!s.entries[e].condemned <==> IsMapped(s, e))
      ensures s.entries[e].location in Files(s) && Files(s)[s.entries[e].location] == cfg.loaded[e]
      ensures PathJar(cfg.dir, s.entries[e].location) == Some(JarOf(s.entries[e])) && Occupies(cfg, s.entries[e])
    {
      assert BootedEntry(cfg, s, ScanAll(FRESH, items).live, items[from[e]], e);
      BootedIsPlaced(codec, cfg, s, items, files, from, e);
    }
  }

  lemma BootedPlaces(codec: Codec, cfg: Config, s: State, items: seq<Item>, files: map<string, Bytes>, from: seq<nat>)
    requires Lists(codec, cfg.dir, items, files.Keys) && Booted(cfg, s, items, files, from) && NameInv(cfg, s)
    ensures PlaceInv(cfg, s) && StampsRise(s)
  {
    forall i, j | 0 <= i < j < |s.entries|
      ensures s.entries[i].location != s.entries[j].location
      ensures s.entries[i].name == s.entries[j].name ==> s.entries[i].ts < s.entries[j].ts
    {
      BootedApart(cfg, s, items, files, from, i, j);
    }
  }

  lemma BootedIsPlaced(codec: Codec, cfg: Config, s: State, items: seq<Item>, files: map<string, Bytes>,
                       from: seq<nat>, e: nat)
    requires Lists(codec, cfg.dir, items, files.Keys) && Booted(cfg, s, items, files, from) && e < |s.entries|
    ensures PathJar(cfg.dir, s.entries[e].location) == Some(JarOf(s.entries[e])) && Occupies(cfg, s.entries[e])
  {
    var k := from[e];
    KindOfPath(codec, cfg.dir, items[k].path);
    DriverIsLive(FRESH, items, k);
    RemovedIffDoomed(items, k);
    assert s.entries[e].location !in Gone(cfg, items);
  }

  lemma BootedApart(cfg: Config, s: State, items: seq<Item>, files: map<string, Bytes>, from: seq<nat>, i: nat, j: nat)
    requires PathsDistinct(items) && Booted(cfg, s, items, files, from) && i < j < |s.entries|
    ensures s.entries[i].location != s.entries[j].location
    ensures s.entries[i].name == s.entries[j].name ==> s.entries[i].ts < s.entries[j].ts
  {
    assert items[from[i]].path == s.entries[i].location && items[from[j]].path == s.entries[j].location;
    assert s.entries[j].location !in Gone(cfg, items);
    if s.entries[i].name == s.entries[j].name {
      SurvivorsRise(items, from[i], from[j]);
    }
  }

  /** Of two drivers of one name the scan does not delete, the one listed later is newer. */
  lemma {:induction false} SurvivorsRise(items: seq<Item>, i: nat, j: nat)
    requires i < j < |items| && items[i].kind.Driver? && items[j].IsDriverOf(items[i].kind.jar.name)
    requires items[j].path !in ScanAll(FRESH, items).deleted
    ensures items[i].kind.jar.ts < items[j].kind.jar.ts
  {
    var n := |items| - 1;
    if j < n {
      SurvivorsRise(items[..n], i, j);
    } else {
      DriverIsLive(FRESH, items[..n], i);
      var k := LiveIsNewest(items[..n], items[i].kind.jar.name);
    }
  }

  lemma BootedOwner(codec: Codec, cfg: Config, s: State, items: seq<Item>, files: map<string, Bytes>,
                    from: seq<nat>, p: string)
    requires Lists(codec, cfg.dir, items, files.Keys) && Booted(cfg, s, items, files, from)
    requires forall q | q in files :: IsChild(cfg.dir, q)
    requires p in s.dir && PathJar(cfg.dir, p).Some?
    ensures exists e: nat :: IsAt(cfg, s, e, p)
  {
    assert p in Files(s);
    var k := SurvivingDriver(codec, cfg, items, files, p);
    var e :| 0 <= e < |from| && from[e] == k;
    BootedIsPlaced(codec, cfg, s, items, files, from, e);
    assert IsAt(cfg, s, e, p);
  }

  lemma SurvivingDriver(codec: Codec, cfg: Config, items: seq<Item>, files: map<string, Bytes>, p: string)
    returns (k: nat)
    requires Lists(codec, cfg.dir, items, files.Keys)
    requires p in files && IsChild(cfg.dir, p) && p !in Gone(cfg, items)
    requires PathJar(cfg.dir, p).Some?
    ensures k < |items| && items[k].path == p && items[k].kind.Driver?
  {
    k :| 0 <= k < |items| && items[k] == ItemAt(codec, cfg.dir, p);
    KindOfPath(codec, cfg.dir, p);
    assert p == PathOf(cfg.dir, BaseOf(cfg.dir, p));
    PathJarOfBase(cfg.dir, BaseOf(cfg.dir, p));
    if !items[k].kind.Driver? {
      KindIsDeleted(FRESH, items, k);
    }
  }

  // ----- The map and the files

  /** The booted manager's map and files are those `init` leaves: the scan's map, and the directory without
      the files it takes away. */
  lemma BootedWorld(codec: Codec, cfg: Config, s: State, items: seq<Item>, files: map<string, Bytes>, from: seq<nat>)
    requires Lists(codec, cfg.dir, items, files.Keys) && Booted(cfg, s, items, files, from)
    ensures WorldOf(s) == World(ScanAll(FRESH, items).live, files - Gone(cfg, items))
  {
    var live := ScanAll(FRESH, items).live;
    forall n
      ensures n in s.emap ==> n in live && ViewOf(s.entries[s.emap[n]]) == live[n]
      ensures n in live ==> n in s.emap
    {
      if n in s.emap {
        MappedIsLive(cfg, s, items, files, from, s.emap[n]);
      }
      if n in live {
        LiveIsMapped(cfg, s, items, files, from, n);
      }
    }
    assert WorldOf(s).live == live;
  }

  lemma MappedIsLive(cfg: Config, s: State, items: seq<Item>, files: map<string, Bytes>, from: seq<nat>, e: nat)
    requires PathsDistinct(items) && Booted(cfg, s, items, files, from) && IsMapped(s, e)
    ensures s.entries[e].name in ScanAll(FRESH, items).live
    ensures ScanAll(FRESH, items).live[s.entries[e].name] == ViewOf(s.entries[e])
  {
    var live, item := ScanAll(FRESH, items).live, items[from[e]];
    assert BootedEntry(cfg, s, live, item, e);
    DriverIsLive(FRESH, items, from[e]);
    var k := LiveIsNewest(items, s.entries[e].name);
    assert items[k].path == item.path;
  }

  lemma LiveIsMapped(cfg: Config, s: State, items: seq<Item>, files: map<string, Bytes>, from: seq<nat>, n: string)
    requires PathsDistinct(items) && Booted(cfg, s, items, files, from) && n in ScanAll(FRESH, items).live
    ensures n in s.emap
  {
    var k := LiveIsKept(cfg, items, n);
    var e :| 0 <= e < |from| && from[e] == k;
    assert BootedEntry(cfg, s, ScanAll(FRESH, items).live, items[from[e]], e);
  }

  /** The file of a mapped driver is not taken away. */
  lemma LiveIsKept(cfg: Config, items: seq<Item>, n: string) returns (k: nat)
    requires PathsDistinct(items) && n in ScanAll(FRESH, items).live
    ensures k < |items| && items[k].IsDriverOf(n) && items[k].path !in Gone(cfg, items)
    ensures ScanAll(FRESH, items).live[n] == Loaded(items[k].kind.jar, items[k].path)
  {
    k := LiveIsNewest(items, n);
    RemovedIffDoomed(items, k);
  }

  // ----- There is such a state

  /** The positions of the drivers left on disk among the first `n` items. */
  function Left(items: seq<Item>, gone: set<string>, n: nat): (from: seq<nat>)
    requires n <= |items|
    ensures forall i, j | 0 <= i < j < |from| :: from[i] < from[j]
    ensures forall k: nat :: k in from <==> k < n && items[k].kind.Driver? && items[k].path !in gone
  {
    if n == 0 then []
    else
      var front := Left(items, gone, n - 1);
      assert forall i | 0 <= i < |front| :: front[i] in front;
      if items[n - 1].kind.Driver? && items[n - 1].path !in gone then front + [n - 1] else front
  }

  function BootEntry(item: Item, live: map<string, EntryView>): Entry
    requires item.kind.Driver?
  {
    var jar := item.kind.jar;
    var old_ := jar.name in live && live[jar.name].location != item.path;
    Entry(jar.name, jar.checksum, jar.ts, item.path, true, old_, true, None, true, None, old_)
  }

  /** Some numbering of the files as inodes. */
  lemma SomeDirectory(files: map<string, Bytes>) returns (dir: map<string, nat>, inodes: seq<Bytes>)
    ensures dir.Keys == files.Keys
    ensures forall p | p in dir :: dir[p] < |inodes| && inodes[dir[p]] == files[p]
    ensures forall p, q | p in dir && q in dir && p != q :: dir[p] != dir[q]
    decreases |files.Keys|
  {
    if files.Keys == {} {
      dir, inodes := map[], [];
    } else {
      var p :| p in files.Keys;
      var rest := files - {p};
      assert files.Keys == rest.Keys + {p};
      dir, inodes := SomeDirectory(rest);
      dir, inodes := dir[p := |inodes|], inodes + [files[p]];
    }
  }

  /** Where the driver mapped to `n` stands among those left. */
  ghost predicate StandsAt(items: seq<Item>, from: seq<nat>, live: map<string, EntryView>, n: string, e: nat)
    requires n in live
  {
    e < |from| && from[e] < |items| && items[from[e]].IsDriverOf(n) && items[from[e]].path == live[n].location
  }

  lemma SomeMap(cfg: Config, items: seq<Item>, from: seq<nat>) returns (emap: map<string, nat>)
    requires PathsDistinct(items) && from == Left(items, Gone(cfg, items), |items|)
    ensures MapsLive(items, from, emap)
  {
    var live := ScanAll(FRESH, items).live;
    forall n | n in live
      ensures exists e: nat :: StandsAt(items, from, live, n, e)
    {
      var k := LiveIsKept(cfg, items, n);
      assert k in from;
      var e :| 0 <= e < |from| && from[e] == k;
      assert StandsAt(items, from, live, n, e);
    }
    emap := map n | n in live :: var e: nat :| StandsAt(items, from, live, n, e); e;
  }

  /** Every directory of plain files boots: whatever `init` finds, and however it is listed, there is a
      state of the protocol it leaves. */
  lemma BootExists(codec: Codec, dir: string, md5: Bytes -> Md5.Digest, honour: bool, reap: bool,
                   items: seq<Item>, files: map<string, Bytes>)
    returns (cfg: Config, s: State, from: seq<nat>)
    requires Lists(codec, dir, items, files.Keys) && forall p | p in files :: IsChild(dir, p)
    ensures cfg.dir == dir && cfg.md5 == md5 && cfg.honour == honour && cfg.reap == reap
    ensures Booted(cfg, s, items, files, from)
  {
    cfg := Config(dir, md5, honour, reap, []);
    var gone := Gone(cfg, items);
    from := Left(items, gone, |items|);
    var emap := SomeMap(cfg, items, from);
    LeftAreFiles(codec, dir, items, files, gone, from);
    cfg := cfg.(loaded := Contents(items, files, from));
    s := Builds(items, files - gone, from, emap);
    BuiltIsBooted(cfg, s, items, files, from);
  }

  ghost function Contents(items: seq<Item>, files: map<string, Bytes>, from: seq<nat>): seq<Bytes>
    requires forall e | 0 <= e < |from| :: from[e] < |items| && items[from[e]].path in files
  {
    seq(|from|, e requires 0 <= e < |from| => files[items[from[e]].path])
  }

  lemma Builds(items: seq<Item>, files: map<string, Bytes>, from: seq<nat>, emap: map<string, nat>) returns (s: State)
    requires forall e | 0 <= e < |from| :: from[e] < |items| && items[from[e]].kind.Driver?
    requires MapsLive(items, from, emap)
    ensures Wf(s) && NoLinks(s) && Files(s) == files
    ensures s.entries == BootEntries(items, from) && s.emap == emap && s.threads == map[] && s.answers == []
  {
    var paths, inodes := SomeDirectory(files);
    s := State(BootEntries(items, from), emap, paths, inodes, map[], []);
    assert forall n | n in emap :: StandsAt(items, from, ScanAll(FRESH, items).live, n, emap[n]);
    assert Files(s) == files;
  }

  ghost function BootEntries(items: seq<Item>, from: seq<nat>): seq<Entry>
    requires forall e | 0 <= e < |from| :: from[e] < |items| && items[from[e]].kind.Driver?
  {
    seq(|from|, e requires 0 <= e < |from| => BootEntry(items[from[e]], ScanAll(FRESH, items).live))
  }

  /** The map sends exactly the mapped names to where their drivers stand. */
  ghost predicate MapsLive(items: seq<Item>, from: seq<nat>, emap: map<string, nat>) {
    var live := ScanAll(FRESH, items).live;
    emap.Keys == live.Keys && forall n | n in emap :: StandsAt(items, from, live, n, emap[n])
  }

  /** The item at `k` is a driver left on disk. */
  predicate IsLeft(items: seq<Item>, files: map<string, Bytes>, gone: set<string>, k: nat) {
    k < |items| && items[k].kind.Driver? && items[k].path in files && items[k].path !in gone
  }

  /** `s` is built from what is left, in the order listed. */
  ghost predicate Built(cfg: Config, s: State, items: seq<Item>, files: map<string, Bytes>, from: seq<nat>) {
    && Wf(s) && NoLinks(s) && s.threads == map[] && s.answers == [] && Files(s) == files - Gone(cfg, items)
    && MapsLive(items, from, s.emap)
    && (forall e | 0 <= e < |from| :: IsLeft(items, files, Gone(cfg, items), from[e]))
    && s.entries == BootEntries(items, from) && |cfg.loaded| == |from|
    && (forall e | 0 <= e < |from| :: cfg.loaded[e] == files[items[from[e]].path])
  }

  lemma BuiltIsBooted(cfg: Config, s: State, items: seq<Item>, files: map<string, Bytes>, from: seq<nat>)
    requires PathsDistinct(items) && from == Left(items, Gone(cfg, items), |items|)
    requires Built(cfg, s, items, files, from)
    ensures Booted(cfg, s, items, files, from)
  {
    forall e | 0 <= e < |from|
      ensures from[e] < |items| && BootedEntry(cfg, s, ScanAll(FRESH, items).live, items[from[e]], e)
    {
      BootsEntry(cfg, s, items, files, from, e);
    }
    BuiltNames(cfg, s, items, files, from);
  }

  lemma BuiltNames(cfg: Config, s: State, items: seq<Item>, files: map<string, Bytes>, from: seq<nat>)
    requires Built(cfg, s, items, files, from)
    ensures forall n | n in s.emap :: s.entries[s.emap[n]].name == n
  {
    forall n | n in s.emap
      ensures s.entries[s.emap[n]].name == n
    {
      assert StandsAt(items, from, ScanAll(FRESH, items).live, n, s.emap[n]);
    }
  }

  lemma LeftAreFiles(codec: Codec, dir: string, items: seq<Item>, files: map<string, Bytes>, gone: set<string>,
                     from: seq<nat>)
    requires Lists(codec, dir, items, files.Keys) && from == Left(items, gone, |items|)
    ensures forall e | 0 <= e < |from| :: IsLeft(items, files, gone, from[e])
  {
    forall e | 0 <= e < |from|
      ensures IsLeft(items, files, gone, from[e])
    {
      assert from[e] in from;
    }
  }

  lemma BootsEntry(cfg: Config, s: State, items: seq<Item>, files: map<string, Bytes>, from: seq<nat>, e: nat)
    requires PathsDistinct(items) && from == Left(items, Gone(cfg, items), |items|) && e < |from|
    requires Built(cfg, s, items, files, from)
    ensures BootedEntry(cfg, s, ScanAll(FRESH, items).live, items[from[e]], e)
  {
    var live, name := ScanAll(FRESH, items).live, s.entries[e].name;
    assert IsLeft(items, files, Gone(cfg, items), from[e]);
    DriverIsLive(FRESH, items, from[e]);
    assert s.entries[e] == BootEntry(items[from[e]], live);
    MapsToSelf(items, from, s.emap, Gone(cfg, items), e);
    assert items[from[e]].path in Files(s);
  }

  /** A driver is mapped where it stands exactly when its own file is the mapped one. */
  lemma MapsToSelf(items: seq<Item>, from: seq<nat>, emap: map<string, nat>, gone: set<string>, e: nat)
    requires PathsDistinct(items) && from == Left(items, gone, |items|) && MapsLive(items, from, emap)
    requires e < |from| && from[e] < |items| && items[from[e]].kind.Driver?
    requires items[from[e]].kind.jar.name in ScanAll(FRESH, items).live
    ensures var name := items[from[e]].kind.jar.name;
      name in emap
      && (emap[name] == e <==> ScanAll(FRESH, items).live[name].location == items[from[e]].path)
  {
    var live, name := ScanAll(FRESH, items).live, items[from[e]].kind.jar.name;
    var f := emap[name];
    assert StandsAt(items, from, live, name, f);
    if live[name].location == items[from[e]].path {
      assert from[f] == from[e];
    }
  }
}
