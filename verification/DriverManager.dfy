/** `JDBCDriverManager` and its entries, one thread at a time: the loop of `init`, the lookup and the
    download. Interleavings are the subject of the protocol modules. */
module DriverManager {
  import opened Wrappers
  import opened Decimal
  import opened FsUtil
  import opened DriverCodec
  import opened DriverScan
  import opened DriverCalls
  import Download = DownloadUtil
  import Md5

  class JDBCDriverEntry {
    const name: string
    const checksum: string
    var firstAccessTs: int
    var location: string
    var isAvailable: bool
    var shouldDelete: bool
    var isDownloaded: bool

    constructor (name: string, checksum: string)
      ensures this.name == name && this.checksum == checksum
      ensures firstAccessTs == INT64_MAX && location == ""
      ensures !isAvailable && !shouldDelete && !isDownloaded
    {
      this.name, this.checksum := name, checksum;
      firstAccessTs, location := INT64_MAX, "";
      isAvailable, shouldDelete, isDownloaded := false, false, false;
    }

    predicate IsExpected(name: string, checksum: string) {
      this.name == name && this.checksum == checksum
    }

    function View(): EntryView
      reads this
    {
      EntryView(Jar(name, checksum, firstAccessTs), location, isDownloaded, isAvailable, shouldDelete)
    }
  }

  /** Where the entries' files are. */
  ghost function Locations(entries: set<JDBCDriverEntry>): set<string>
    reads entries
  {
    set e | e in entries :: e.location
  }

  /** Entries taken out of the map are marked for deletion, and these are their files. */
  ghost predicate Condemned(replaced: set<JDBCDriverEntry>, locations: set<string>)
    reads replaced
  {
    (forall e | e in replaced :: e.shouldDelete) && Locations(replaced) == locations
  }

  lemma CondemnedTogether(a: set<JDBCDriverEntry>, x: set<string>, b: set<JDBCDriverEntry>, y: set<string>)
    requires Condemned(a, x) && Condemned(b, y)
    ensures Condemned(a + b, x + y)
  {
    assert Locations(a + b) == Locations(a) + Locations(b);
  }

  class JDBCDriverManager {
    const codec: Codec
    const honour: bool
    const md5: Bytes -> Md5.Digest
    const fs: FileSystem
    var driverDir: string
    var entryMap: map<string, JDBCDriverEntry>

    /** Entries are filed under their own names; outside a call, downloaded and available agree, and
        an entry still to be downloaded has a generated location. */
    ghost predicate Valid()
      reads `entryMap, entryMap.Values
    {
      forall n | n in entryMap ::
        && entryMap[n].name == n
        && entryMap[n].isDownloaded == entryMap[n].isAvailable
        && (!entryMap[n].isDownloaded ==> EndsWith(entryMap[n].location, JAR_FILE_SUFFIX))
    }

    ghost function View(): map<string, EntryView>
      reads `entryMap, entryMap.Values
    {
      map n | n in entryMap :: entryMap[n].View()
    }

    constructor (codec: Codec, honour: bool, md5: Bytes -> Md5.Digest, fs: FileSystem)
      ensures Valid() && View() == map[]
      ensures this.codec == codec && this.honour == honour && this.md5 == md5 && this.fs == fs
    {
      this.codec, this.honour, this.md5, this.fs := codec, honour, md5, fs;
      driverDir, entryMap := "", map[];
    }

    /** Loads one parsed jar: lines 97-127. */
    method LoadDriver(name: string, checksum: string, ts: int, path: string)
      returns (ghost replaced: set<JDBCDriverEntry>)
      requires Valid() && path in fs.files
      modifies this`entryMap, fs`files, entryMap.Values
      ensures Valid() && forall n | n in entryMap :: entryMap[n] in old(entryMap.Values) || fresh(entryMap[n])
      ensures var s := ScanStep(Scan(old(View()), {}, {}), Item(path, Driver(Jar(name, checksum, ts))));
        View() == s.live && fs.files == old(fs.files) - s.deleted && Condemned(replaced, s.condemned)
      ensures replaced <= old(entryMap.Values) && replaced !! entryMap.Values
    {
      replaced := {};
      if name !in entryMap {
        LoadNew(name, checksum, ts, path);
      } else if ts > entryMap[name].firstAccessTs {
        replaced := {entryMap[name]};
        ReplaceDriver(name, checksum, ts, path);
        assert Locations(replaced) == {old(entryMap[name].location)};
      } else {
        fs.DeleteFile(path);
      }
    }

    /** Files an entry under a name that has none. */
    method LoadNew(name: string, checksum: string, ts: int, path: string)
      requires Valid() && name !in entryMap
      modifies this`entryMap
      ensures Valid() && name in entryMap && fresh(entryMap[name])
      ensures entryMap == old(entryMap)[name := entryMap[name]]
      ensures View() == old(View())[name := Loaded(Jar(name, checksum, ts), path)]
    {
      var entry := NewLoaded(name, checksum, ts, path);
      File(name, entry);
    }

    /** Condemns the mapped entry and files a new one in its place. */
    method ReplaceDriver(name: string, checksum: string, ts: int, path: string)
      requires Valid() && name in entryMap
      modifies this`entryMap, entryMap[name]
      ensures Valid() && name in entryMap && fresh(entryMap[name])
      ensures old(entryMap[name]).shouldDelete && old(entryMap[name]).location == old(entryMap[name].location)
      ensures entryMap == old(entryMap)[name := entryMap[name]]
      ensures View() == old(View())[name := Loaded(Jar(name, checksum, ts), path)]
    {
      var entry := NewLoaded(name, checksum, ts, path);
      ghost var before := View();
      CondemnMapped(name);
      ghost var between := View();
      File(name, entry);
      assert View() == between[name := entry.View()] == before[name := entry.View()];
    }

    /** Marks the mapped entry for deletion; no other entry is touched. */
    method CondemnMapped(name: string)
      requires Valid() && name in entryMap
      modifies entryMap[name]
      ensures Valid() && entryMap[name].shouldDelete && entryMap[name].location == old(entryMap[name].location)
      ensures View() == old(View())[name := old(entryMap[name].View()).(condemned := true)]
    {
      entryMap[name].shouldDelete := true;
    }

    /** Files an entry that is not yet in the map; nothing else changes. */
    method File(name: string, entry: JDBCDriverEntry)
      requires entry.name == name && entry.isDownloaded == entry.isAvailable
      requires !entry.isDownloaded ==> EndsWith(entry.location, JAR_FILE_SUFFIX)
      requires forall n | n in entryMap && n != name ::
        && entryMap[n].name == n && entryMap[n].isDownloaded == entryMap[n].isAvailable
        && (!entryMap[n].isDownloaded ==> EndsWith(entryMap[n].location, JAR_FILE_SUFFIX))
      modifies this`entryMap
      ensures Valid() && entryMap == old(entryMap)[name := entry]
      ensures View() == old(View())[name := entry.View()]
    {
      entryMap := entryMap[name := entry];
    }

    method NewLoaded(name: string, checksum: string, ts: int, path: string) returns (entry: JDBCDriverEntry)
      ensures fresh(entry) && entry.name == name && entry.View() == Loaded(Jar(name, checksum, ts), path)
    {
      entry := new JDBCDriverEntry(name, checksum);
      entry.firstAccessTs := ts;
      entry.location := path;
      entry.isDownloaded := true;
      entry.isAvailable := true;
    }

    /** `init` over a directory listed in some order (a ghost result): the map becomes what the scan
        makes of it, the files it rejects are gone, no other file is touched, and the entries it
        replaced (the other one) are marked for deletion. */
    method Init(dir: string) returns (ghost items: seq<Item>, ghost replaced: set<JDBCDriverEntry>)
      requires Valid()
      modifies this, fs, entryMap.Values
      ensures Valid() && driverDir == dir && fs.dirs == old(fs.dirs) + {dir}
      ensures Lists(codec, dir, items, old(fs.files).Keys)
      ensures View() == ScanAll(Scan(old(View()), {}, {}), items).live
      ensures fs.files == old(fs.files) - ScanAll(Scan(old(View()), {}, {}), items).deleted
      ensures Condemned(replaced, ScanAll(Scan(old(View()), {}, {}), items).condemned)
      ensures forall p | p in old(fs.files) && NotOurs(dir, p) :: p in fs.files && fs.files[p] == old(fs.files)[p]
      ensures forall p | IsChild(dir, p) && IsLeftover(codec, BaseOf(dir, p)) :: p !in fs.files
    {
      var driverFiles := OpenDirectory(dir);
      items := Items(codec, dir, driverFiles);
      replaced := LoadFiles(driverFiles, items);
      SweepsOnlyOurs(codec, dir, old(View()), items, old(fs.files));
    }

    /** Lines 67-75: makes the directory if it is missing, and lists it. */
    method OpenDirectory(dir: string) returns (driverFiles: seq<string>)
      modifies this`driverDir, fs`dirs
      ensures driverDir == dir && fs.dirs == old(fs.dirs) + {dir}
      ensures Lists(codec, dir, Items(codec, dir, driverFiles), fs.files.Keys)
    {
      driverDir := dir;
      if dir !in fs.dirs {
        fs.CreateDirectory(dir);
      }
      driverFiles := fs.ListDirectory(dir);
      ListingLists(codec, dir, driverFiles, fs.files.Keys);
    }

    /** The loop of `init`. */
    method LoadFiles(driverFiles: seq<string>, ghost items: seq<Item>)
      returns (ghost replaced: set<JDBCDriverEntry>)
      requires Valid() && items == Items(codec, driverDir, driverFiles)
      requires PathsDistinct(items) && forall i | 0 <= i < |items| :: items[i].path in fs.files
      modifies this`entryMap, fs`files, entryMap.Values
      ensures Valid()
      ensures View() == ScanAll(Scan(old(View()), {}, {}), items).live
      ensures fs.files == old(fs.files) - ScanAll(Scan(old(View()), {}, {}), items).deleted
      ensures Condemned(replaced, ScanAll(Scan(old(View()), {}, {}), items).condemned)
    {
      replaced := {};
      ghost var s0 := Scan(View(), {}, {});
      ghost var s := s0;
      assert items[..0] == [];
      for i := 0 to |driverFiles|
        invariant Valid() && s == ScanAll(s0, items[..i])
        invariant forall n | n in entryMap :: entryMap[n] in old(entryMap.Values) || fresh(entryMap[n])
        invariant View() == s.live && fs.files == old(fs.files) - s.deleted
        invariant Condemned(replaced, s.condemned) && replaced !! entryMap.Values
      {
        NextItem(s0, items, i);
        assert items[i] == Item(PathOf(driverDir, driverFiles[i]), Classify(codec, driverFiles[i]));
        ghost var more := ProcessFile(driverFiles[i], PathOf(driverDir, driverFiles[i]));
        CondemnedTogether(replaced, s.condemned, more,
                          ScanStep(Scan(s.live, {}, {}), items[i]).condemned);
        replaced := replaced + more;
        s := ScanAll(s0, items[..i + 1]);
      }
      assert items[..|driverFiles|] == items;
    }

    /** One round of the loop of `init`: lines 78-128. */
    method ProcessFile(file: string, targetFile: string) returns (ghost replaced: set<JDBCDriverEntry>)
      requires Valid() && targetFile in fs.files
      modifies this`entryMap, fs`files, entryMap.Values
      ensures Valid() && forall n | n in entryMap :: entryMap[n] in old(entryMap.Values) || fresh(entryMap[n])
      ensures var s := ScanStep(Scan(old(View()), {}, {}), Item(targetFile, Classify(codec, file)));
        View() == s.live && fs.files == old(fs.files) - s.deleted && Condemned(replaced, s.condemned)
      ensures replaced <= old(entryMap.Values) && replaced !! entryMap.Values
    {
      replaced := {};
      if EndsWith(file, TMP_FILE_SUFFIX) {
        fs.DeleteFile(targetFile);
        return;
      }
      if EndsWith(file, JAR_FILE_SUFFIX) {
        var ok, name, checksum, firstAccessTs := ParseFromFileName(codec, file);
        if !ok {
          fs.DeleteFile(targetFile);
          return;
        }
        replaced := LoadDriver(name, checksum, firstAccessTs, targetFile);
      }
    }

    /** `_download_driver`, under the entry's lock. */
    method DownloadDriver(entry: JDBCDriverEntry, t: Download.Transfer) returns (status: Status)
      requires !entry.isDownloaded ==> EndsWith(entry.location, JAR_FILE_SUFFIX)
      modifies entry`isDownloaded, entry`isAvailable, fs`files
      ensures old(entry.isDownloaded) ==>
        status.Ok? && fs.files == old(fs.files) && entry.View() == old(entry.View())
      ensures !old(entry.isDownloaded) ==>
        var ok := Download.Succeeds(md5, entry.checksum, t);
        var tmp := TmpPath(driverDir, entry.name, entry.checksum);
        && (status.Ok? <==> ok || !honour)
        && entry.View() == (if status.Ok? then AsPublished(old(entry.View())) else old(entry.View()))
        && fs.files - {tmp}
           == (if ok then old(fs.files)[entry.location := t.OnDisk(Download.Concat(t.chunks))]
               else old(fs.files)) - {tmp}
    {
      if entry.isDownloaded {
        return Ok;
      }
      var tmpFile := TmpPath(driverDir, entry.name, entry.checksum);
      TmpIsNoJarFile(driverDir, entry.name, entry.checksum);
      status := Download.Download(fs, md5, tmpFile, entry.location, entry.checksum, t);
      if honour && !status.Ok? {
        return;
      }
      entry.isDownloaded := true;
      entry.isAvailable := true;
      status := Ok;
    }

    /** `get_driver_location`. */
    method GetDriverLocation(name: string, checksum: string, now: Int64, t: Download.Transfer)
      returns (status: Status, location: string)
      requires Valid()
      modifies this`entryMap, fs`files, entryMap.Values
      ensures Valid()
      ensures Call(driverDir, md5, honour, old(World(View(), fs.files)), Request(name, checksum, now), t,
                   World(View(), fs.files), status, location)
    {
      ghost var req := Request(name, checksum, now);
      ghost var before := World(View(), fs.files);
      var entry := Lookup(name, checksum, now);
      if entry.isAvailable {
        assert View() == before.live;
        return Ok, entry.location;
      }
      status, location := FetchDriver(entry, t, before, req);
    }

    /** The call once its critical section is left: download, and return the location or the error. */
    method FetchDriver(entry: JDBCDriverEntry, t: Download.Transfer, ghost before: World, ghost req: Request)
      returns (status: Status, location: string)
      requires Valid() && entry.name in entryMap && entryMap[entry.name] == entry && !entry.isDownloaded
      requires req.name == entry.name && req.checksum == entry.checksum
      requires entry.View() == Settle(driverDir, before.live, req)
      requires View() == before.live[req.name := entry.View()] && fs.files == before.files
      modifies entry`isDownloaded, entry`isAvailable, fs`files
      ensures Valid()
      ensures Call(driverDir, md5, honour, before, req, t, World(View(), fs.files), status, location)
    {
      location := "";
      ghost var view := entry.View();
      status := DownloadDriver(entry, t);
      if status.Ok? {
        location := entry.location;
      }
      assert View() == before.live[req.name := if status.Ok? then AsPublished(view) else view];
      CallMade(driverDir, md5, honour, before, req, t, World(View(), fs.files), status, location);
    }

    /** The critical section of `get_driver_location`. */
    method Lookup(name: string, checksum: string, now: Int64) returns (entry: JDBCDriverEntry)
      requires Valid()
      modifies this`entryMap, entryMap.Values
      ensures Valid() && name in entryMap && entryMap[name] == entry
      ensures entry in old(entryMap.Values) || fresh(entry)
      ensures entry.name == name && entry.checksum == checksum
      ensures entry.View() == Settle(driverDir, old(View()), Request(name, checksum, now))
      ensures View() == old(View())[name := entry.View()]
      ensures name in old(entryMap) && old(entryMap[name]) != entry ==> old(entryMap[name]).shouldDelete
    {
      if name in entryMap && entryMap[name].IsExpected(name, checksum) {
        entry := entryMap[name];
      } else {
        entry := FileNew(name, checksum, now);
      }
    }

    /** Files a new entry, the mapped one (if any) condemned. */
    method FileNew(name: string, checksum: string, now: Int64) returns (entry: JDBCDriverEntry)
      requires Valid()
      modifies this`entryMap, entryMap.Values
      ensures Valid() && name in entryMap && entryMap[name] == entry && fresh(entry)
      ensures entry.name == name && entry.checksum == checksum
      ensures name in old(entryMap) ==> old(entryMap[name]).shouldDelete
      ensures entry.View() == Created(driverDir, Request(name, checksum, now))
      ensures View() == old(View())[name := entry.View()]
    {
      if name in entryMap {
        CondemnMapped(name);
      }
      entry := NewPending(name, checksum, now);
      File(name, entry);
    }

    method NewPending(name: string, checksum: string, now: Int64) returns (entry: JDBCDriverEntry)
      ensures fresh(entry) && entry.name == name && entry.checksum == checksum
      ensures entry.View() == Created(driverDir, Request(name, checksum, now))
      ensures !entry.isDownloaded && !entry.isAvailable && EndsWith(entry.location, JAR_FILE_SUFFIX)
    {
      entry := new JDBCDriverEntry(name, checksum);
      entry.firstAccessTs := now;
      entry.location := Location(driverDir, Jar(name, checksum, now));
      LocationIsJarFile(driverDir, Jar(name, checksum, now));
    }
  }

  /** By its name, a file that `init` has no business with. */
  predicate NotOurs(dir: string, p: string) {
    IsChild(dir, p) ==> !HasSuffix(BaseOf(dir, p), ".tmp") && !HasSuffix(BaseOf(dir, p), ".jar")
  }

  /** By its name, a file that `init` always deletes. */
  predicate IsLeftover(codec: Codec, file: string) {
    HasSuffix(file, ".tmp") || (HasSuffix(file, ".jar") && Classify(codec, file).Unparseable?)
  }

  lemma SweepsOnlyOurs(codec: Codec, dir: string, live: map<string, EntryView>, items: seq<Item>,
                       files: map<string, Bytes>)
    requires Lists(codec, dir, items, files.Keys)
    ensures var left := files - ScanAll(Scan(live, {}, {}), items).deleted;
      && (forall p | p in files && NotOurs(dir, p) :: p in left && left[p] == files[p])
      && (forall p | IsChild(dir, p) && IsLeftover(codec, BaseOf(dir, p)) :: p !in left)
  {
    var s0 := Scan(live, {}, {});
    forall p | p in files && NotOurs(dir, p)
      ensures p !in ScanAll(s0, items).deleted
    {
      OthersAreSpared(codec, dir, s0, items, files.Keys, p);
    }
    forall p | p in files && IsChild(dir, p) && IsLeftover(codec, BaseOf(dir, p))
      ensures p in ScanAll(s0, items).deleted
    {
      LeftoversAreDeleted(codec, dir, s0, items, files.Keys, p);
    }
  }

  lemma LocationIsJarFile(dir: string, jar: Jar)
    ensures EndsWith(Location(dir, jar), JAR_FILE_SUFFIX)
  {
    var stem := PathOf(dir, jar.name + "_" + jar.checksum + "_" + ToString(jar.ts));
    assert Location(dir, jar) == stem + JAR_FILE_SUFFIX;
    EndsWithAppended(stem, JAR_FILE_SUFFIX);
  }

  lemma TmpIsNoJarFile(dir: string, name: string, checksum: string)
    ensures !EndsWith(TmpPath(dir, name, checksum), JAR_FILE_SUFFIX)
  {
    var stem := PathOf(dir, name + "_" + checksum);
    assert TmpPath(dir, name, checksum) == stem + TMP_FILE_SUFFIX;
    EndsWithAppended(stem, TMP_FILE_SUFFIX);
    SuffixesDiffer(TmpPath(dir, name, checksum));
  }

  /** Processing the next item adds its own effect to what the scan has done so far, and its file is
      still there. */
  lemma NextItem(s0: Scan, items: seq<Item>, i: nat)
    requires i < |items| && PathsDistinct(items) && s0.deleted == {}
    ensures ScanAll(s0, items[..i + 1]).condemned == ScanAll(s0, items[..i]).condemned
         + ScanStep(Scan(ScanAll(s0, items[..i]).live, {}, {}), items[i]).condemned
    ensures var s, step := ScanAll(s0, items[..i]), ScanStep(Scan(ScanAll(s0, items[..i]).live, {}, {}), items[i]);
      && ScanAll(s0, items[..i + 1]).live == step.live
      && ScanAll(s0, items[..i + 1]).deleted == s.deleted + step.deleted
      && items[i].path !in s.deleted
  {
    assert items[..i + 1][..i] == items[..i];
    if items[i].path in ScanAll(s0, items[..i]).deleted {
      var j := DeletedWasListed(s0, items[..i], items[i].path);
    }
  }

  lemma {:induction false} DeletedWasListed(s0: Scan, items: seq<Item>, path: string) returns (j: nat)
    requires s0.deleted == {} && path in ScanAll(s0, items).deleted
    ensures j < |items| && items[j].path == path
  {
    var n := |items| - 1;
    if path in ScanAll(s0, items[..n]).deleted {
      j := DeletedWasListed(s0, items[..n], path);
    } else {
      j := n;
    }
  }
}
