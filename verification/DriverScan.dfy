/** The start-up scan of be/runtime/jdbc_driver_manager.cpp:77-129 as a fold over the listing, and
    what it leaves behind. The entry is created where line 101 compares instead of assigning;
    `ScanWritten` keeps the comparison. */
module DriverScan {
  import opened Wrappers
  import opened FsUtil
  import opened DriverCodec

  /** The fields of a `JDBCDriverEntry` that a scan can see. */
  datatype EntryView = EntryView(
    jar: Jar, location: string, downloaded: bool, available: bool, condemned: bool)

  datatype Kind = Temporary | Unparseable | Driver(jar: Jar) | Other

  /** One listed file: its full path and what its name says. */
  datatype Item = Item(path: string, kind: Kind) {
    predicate IsDriverOf(name: string) {
      kind.Driver? && kind.jar.name == name
    }
  }

  function Classify(codec: Codec, file: string): Kind {
    if EndsWith(file, TMP_FILE_SUFFIX) then Temporary
    else if EndsWith(file, JAR_FILE_SUFFIX) then
      match Parse(codec, file)
      case Some(jar) => Driver(jar)
      case None => Unparseable
    else Other
  }

  /** Suffixes read off the end of a name. */
  predicate HasSuffix(file: string, suffix: string) {
    |suffix| <= |file| && file[|file| - |suffix|..] == suffix
  }

  lemma SuffixIsEnding(file: string, suffix: string)
    ensures HasSuffix(file, suffix) <==> EndsWith(file, suffix)
  {
    EndsWithIsSuffix(file, suffix);
  }

  /** What names are of which kind. */
  lemma KindsBySuffix(codec: Codec, file: string)
    ensures Classify(codec, file).Temporary? <==> HasSuffix(file, ".tmp")
    ensures Classify(codec, file).Other? <==> !HasSuffix(file, ".tmp") && !HasSuffix(file, ".jar")
    ensures HasSuffix(file, ".jar") ==>
      EndsWith(file, JAR_FILE_SUFFIX)
      && Classify(codec, file) == (if Parse(codec, file).Some? then Driver(Parse(codec, file).value) else Unparseable)
  {
    SuffixIsEnding(file, ".tmp");
    SuffixIsEnding(file, ".jar");
    if EndsWith(file, TMP_FILE_SUFFIX) {
      SuffixesDiffer(file);
    }
  }

  function ItemOf(codec: Codec, dir: string, file: string): Item {
    Item(PathOf(dir, file), Classify(codec, file))
  }

  function Items(codec: Codec, dir: string, listing: seq<string>): seq<Item> {
    seq(|listing|, i requires 0 <= i < |listing| => ItemOf(codec, dir, listing[i]))
  }

  /** `live` is the entry map; `deleted` the paths the scan removed; `condemned` the locations of the
      entries it replaced, whose files wait for the entry's destruction. */
  datatype Scan = Scan(live: map<string, EntryView>, deleted: set<string>, condemned: set<string>) {
    function Removed(): set<string> { deleted + condemned }
  }

  const FRESH: Scan := Scan(map[], {}, {})

  function Loaded(jar: Jar, location: string): EntryView {
    EntryView(jar, location, true, true, false)
  }

  function ScanStep(s: Scan, item: Item): Scan {
    match item.kind
    case Temporary => s.(deleted := s.deleted + {item.path})
    case Unparseable => s.(deleted := s.deleted + {item.path})
    case Other => s
    case Driver(jar) =>
      if jar.name !in s.live then
        s.(live := s.live[jar.name := Loaded(jar, item.path)])
      else if jar.ts > s.live[jar.name].jar.ts then
        s.(live := s.live[jar.name := Loaded(jar, item.path)],
           condemned := s.condemned + {s.live[jar.name].location})
      else
        s.(deleted := s.deleted + {item.path})
  }

  function ScanAll(s: Scan, items: seq<Item>): Scan {
    if items == [] then s
    else ScanStep(ScanAll(s, items[..|items| - 1]), items[|items| - 1])
  }

  // ----- What a fresh manager keeps

  ghost predicate PathsDistinct(items: seq<Item>) {
    forall i, j | 0 <= i < j < |items| :: items[i].path != items[j].path
  }

  /** `items[k]` is the newest driver of its name, the first listed one among equals. */
  ghost predicate IsNewest(items: seq<Item>, name: string, k: nat) {
    && k < |items| && items[k].IsDriverOf(name)
    && (forall i | 0 <= i < |items| && items[i].IsDriverOf(name) ::
          && items[i].kind.jar.ts <= items[k].kind.jar.ts
          && (i < k ==> items[i].kind.jar.ts < items[k].kind.jar.ts))
  }

  /** The map holds for `name` the driver listed at `k`. */
  ghost predicate Maps(live: map<string, EntryView>, name: string, items: seq<Item>, k: nat)
    requires k < |items| && items[k].kind.Driver?
  {
    name in live && live[name] == Loaded(items[k].kind.jar, items[k].path)
  }

  lemma {:induction false} DriverIsLive(s: Scan, items: seq<Item>, i: nat)
    requires i < |items| && items[i].kind.Driver?
    ensures items[i].kind.jar.name in ScanAll(s, items).live
  {
    if i < |items| - 1 {
      DriverIsLive(s, items[..|items| - 1], i);
    }
  }

  lemma {:induction false} LiveIsNewest(items: seq<Item>, name: string) returns (k: nat)
    requires name in ScanAll(FRESH, items).live
    ensures IsNewest(items, name, k) && Maps(ScanAll(FRESH, items).live, name, items, k)
  {
    var n := |items| - 1;
    var front := items[..n];
    var before := ScanAll(FRESH, front);
    if name in before.live {
      k := LiveIsNewest(front, name);
      if items[n].IsDriverOf(name) && items[n].kind.jar.ts > before.live[name].jar.ts {
        k := n;
      }
    } else {
      k := n;
      forall i | 0 <= i < n
        ensures !items[i].IsDriverOf(name)
      {
        if items[i].IsDriverOf(name) {
          DriverIsLive(FRESH, front, i);
        }
      }
    }
  }

  /** Files the scan has to get rid of, judged by the map it ended with. */
  predicate Doomed(live: map<string, EntryView>, item: Item) {
    match item.kind
    case Temporary => true
    case Unparseable => true
    case Other => false
    case Driver(jar) => jar.name in live && live[jar.name].location != item.path
  }

  /** Nothing outside the listing is removed, and every mapped file was listed. */
  lemma {:induction false} RemovedWasListed(items: seq<Item>, path: string) returns (i: nat)
    requires path in ScanAll(FRESH, items).Removed()
    ensures i < |items| && items[i].path == path
  {
    var n := |items| - 1;
    var before := ScanAll(FRESH, items[..n]);
    if path in before.Removed() {
      i := RemovedWasListed(items[..n], path);
    } else if items[n].path == path {
      i := n;
    } else {
      i := LiveIsNewest(items[..n], items[n].kind.jar.name);
    }
  }

  /** A listed file is removed exactly when it is doomed. */
  lemma {:induction false} RemovedIffDoomed(items: seq<Item>, i: nat)
    requires PathsDistinct(items) && i < |items|
    ensures items[i].path in ScanAll(FRESH, items).Removed()
       <==> Doomed(ScanAll(FRESH, items).live, items[i])
  {
    var n := |items| - 1;
    var front, last := items[..n], items[n];
    var before := ScanAll(FRESH, front);
    if i == n {
      if last.path in before.Removed() {
        var j := RemovedWasListed(front, last.path);
      }
    } else {
      RemovedIffDoomed(front, i);
      if items[i].kind.Driver? {
        DriverIsLive(FRESH, front, i);
      }
    }
    if last.kind.Driver? && last.kind.jar.name in before.live {
      var k := LiveIsNewest(front, last.kind.jar.name);
    }
  }

  /** What the scan of a fresh manager achieves on any listing: a name is mapped exactly when one of
      its drivers is listed, and then to the newest; the files removed (on the spot, or with their
      condemned entry) are exactly the temporary files, the unparseable jars and the superseded
      drivers. */
  lemma InitResult(items: seq<Item>)
    requires PathsDistinct(items)
    ensures var s := ScanAll(FRESH, items);
      && (forall name :: name in s.live <==> exists k: nat :: IsNewest(items, name, k))
      && (forall name, k: nat | IsNewest(items, name, k) :: Maps(s.live, name, items, k))
      && (forall i | 0 <= i < |items| :: items[i].path in s.Removed() <==> Doomed(s.live, items[i]))
      && (forall p | p in s.Removed() :: exists i :: 0 <= i < |items| && items[i].path == p)
  {
    var s := ScanAll(FRESH, items);
    forall name
      ensures name in s.live <==> exists k: nat :: IsNewest(items, name, k)
    {
      if name in s.live {
        var k := LiveIsNewest(items, name);
      }
      if k: nat :| IsNewest(items, name, k) {
        DriverIsLive(FRESH, items, k);
      }
    }
    forall name, k: nat | IsNewest(items, name, k)
      ensures Maps(s.live, name, items, k)
    {
      DriverIsLive(FRESH, items, k);
      var j := LiveIsNewest(items, name);
      assert j == k;
    }
    forall i | 0 <= i < |items|
      ensures items[i].path in s.Removed() <==> Doomed(s.live, items[i])
    {
      RemovedIffDoomed(items, i);
    }
    forall p | p in s.Removed()
      ensures exists i :: 0 <= i < |items| && items[i].path == p
    {
      var i := RemovedWasListed(items, p);
    }
  }

  // ----- Order, repetition, and the code as written

  /** Timestamps within a name are distinct. */
  ghost predicate StampsDistinct(items: seq<Item>) {
    forall i, j | 0 <= i < |items| && 0 <= j < |items|
        && items[i].kind.Driver? && items[j].kind.Driver?
        && items[i].kind.jar.name == items[j].kind.jar.name
        && items[i].kind.jar.ts == items[j].kind.jar.ts ::
      items[i] == items[j]
  }

  ghost predicate SameItems(a: seq<Item>, b: seq<Item>) {
    && (forall i | 0 <= i < |a| :: a[i] in b)
    && (forall j | 0 <= j < |b| :: b[j] in a)
  }

  /** Two listings that show the same newest drivers are mapped alike. */
  lemma SameLive(a: seq<Item>, b: seq<Item>, name: string)
    requires StampsDistinct(a)
    requires forall j | 0 <= j < |b| && b[j].IsDriverOf(name) :: b[j] in a
    requires forall k: nat | IsNewest(a, name, k) :: a[k] in b
    requires name in ScanAll(FRESH, a).live
    ensures name in ScanAll(FRESH, b).live
    ensures ScanAll(FRESH, b).live[name] == ScanAll(FRESH, a).live[name]
  {
    var k := LiveIsNewest(a, name);
    assert a[k] in b;
    var j :| 0 <= j < |b| && b[j] == a[k];
    DriverIsLive(FRESH, b, j);
    var k' := LiveIsNewest(b, name);
    assert b[k'] in a;
    var i :| 0 <= i < |a| && a[i] == b[k'];
    assert a[i].kind.jar.ts == a[k].kind.jar.ts;
  }

  /** With distinct timestamps the order of the listing does not matter: same map, same removals. */
  lemma OrderIndependence(a: seq<Item>, b: seq<Item>)
    requires PathsDistinct(a) && PathsDistinct(b) && SameItems(a, b) && StampsDistinct(a)
    ensures ScanAll(FRESH, a).live == ScanAll(FRESH, b).live
    ensures ScanAll(FRESH, a).Removed() == ScanAll(FRESH, b).Removed()
  {
    assert StampsDistinct(b);
    var s, t := ScanAll(FRESH, a), ScanAll(FRESH, b);
    forall name
      ensures name in s.live <==> name in t.live
      ensures name in s.live ==> s.live[name] == t.live[name]
    {
      if name in s.live { SameLive(a, b, name); }
      if name in t.live { SameLive(b, a, name); }
    }
    assert s.live == t.live;
    forall p
      ensures p in s.Removed() <==> p in t.Removed()
    {
      if p in s.Removed() { RemovedCarries(a, b, p); }
      if p in t.Removed() { RemovedCarries(b, a, p); }
    }
  }

  lemma RemovedCarries(a: seq<Item>, b: seq<Item>, p: string)
    requires PathsDistinct(a) && PathsDistinct(b) && SameItems(a, b)
    requires ScanAll(FRESH, a).live == ScanAll(FRESH, b).live
    requires p in ScanAll(FRESH, a).Removed()
    ensures p in ScanAll(FRESH, b).Removed()
  {
    var i := RemovedWasListed(a, p);
    RemovedIffDoomed(a, i);
    assert a[i] in b;
    var j :| 0 <= j < |b| && b[j] == a[i];
    RemovedIffDoomed(b, j);
  }

  /** With equal timestamps it does matter: the first one listed stays. */
  lemma OrderMattersOnTies(name: string, c: string, d: string, ts: int, p: string, q: string)
    requires p != q
    ensures var a, b := Item(p, Driver(Jar(name, c, ts))), Item(q, Driver(Jar(name, d, ts)));
      && ScanAll(FRESH, [a, b]).live[name].location == p
      && ScanAll(FRESH, [b, a]).live[name].location == q
      && ScanAll(FRESH, [a, b]).deleted == {q} && ScanAll(FRESH, [b, a]).deleted == {p}
  {
    var a, b := Item(p, Driver(Jar(name, c, ts))), Item(q, Driver(Jar(name, d, ts)));
    assert [a, b][..1] == [a] && [b, a][..1] == [b] && [a][..0] == [] && [b][..0] == [];
    assert ScanAll(FRESH, [a]).live == map[name := Loaded(a.kind.jar, p)];
    assert ScanAll(FRESH, [b]).live == map[name := Loaded(b.kind.jar, q)];
  }

  /** `second` lists what scanning `first` left, its condemned files gone. */
  ghost predicate Survivors(first: seq<Item>, second: seq<Item>) {
    && (forall i | 0 <= i < |second| :: second[i] in first)
    && (forall item | item in second :: item.path !in ScanAll(FRESH, first).Removed())
    && (forall item | item in first && item.path !in ScanAll(FRESH, first).Removed() :: item in second)
  }

  /** `init` is a fixed point: scanning what an earlier scan left (condemned files gone) removes
      nothing and rebuilds the same map. */
  lemma ScanIsFixedPoint(first: seq<Item>, second: seq<Item>)
    requires PathsDistinct(first) && PathsDistinct(second)
    requires Survivors(first, second)
    ensures ScanAll(FRESH, second) == Scan(ScanAll(FRESH, first).live, {}, {})
  {
    var s, t := ScanAll(FRESH, first), ScanAll(FRESH, second);
    forall name
      ensures name in s.live <==> name in t.live
      ensures name in s.live ==> s.live[name] == t.live[name]
    {
      if name in s.live { SurvivorIsLive(first, second, name); }
      if name in t.live {
        var j := LiveIsNewest(second, name);
        assert second[j] in first;
        var i :| 0 <= i < |first| && first[i] == second[j];
        DriverIsLive(FRESH, first, i);
      }
    }
    assert s.live == t.live;
    if p :| p in t.Removed() {
      var j := RemovedWasListed(second, p);
      RemovedIffDoomed(second, j);
      assert second[j] in first;
      var i :| 0 <= i < |first| && first[i] == second[j];
      RemovedIffDoomed(first, i);
    }
    assert t.Removed() == {};
  }

  lemma SurvivorIsLive(first: seq<Item>, second: seq<Item>, name: string)
    requires PathsDistinct(first)
    requires Survivors(first, second)
    requires name in ScanAll(FRESH, first).live
    ensures name in ScanAll(FRESH, second).live
    ensures ScanAll(FRESH, second).live[name] == ScanAll(FRESH, first).live[name]
  {
    var k := LiveIsNewest(first, name);
    RemovedIffDoomed(first, k);
    assert first[k] in second;
    var j :| 0 <= j < |second| && second[j] == first[k];
    DriverIsLive(FRESH, second, j);
    var k' := LiveIsNewest(second, name);
    assert second[k'] in first;
    var i :| 0 <= i < |first| && first[i] == second[k'];
    RemovedIffDoomed(first, i);
    assert first[i].path == first[k].path;
  }

  /** The destructor as written removes no file, so a superseded driver stays on disk exactly when
      some driver is listed after a strictly older one of its name and beats all listed before. */
  ghost predicate Overtakes(items: seq<Item>, j: nat) {
    && j < |items| && items[j].kind.Driver?
    && (exists i :: 0 <= i < j && items[i].IsDriverOf(items[j].kind.jar.name))
    && (forall i | 0 <= i < j && items[i].IsDriverOf(items[j].kind.jar.name) ::
          items[i].kind.jar.ts < items[j].kind.jar.ts)
  }

  lemma {:induction false} LeftoversIffOvertaken(items: seq<Item>)
    ensures ScanAll(FRESH, items).condemned != {} <==> exists j: nat :: Overtakes(items, j)
  {
    if items != [] {
      var n := |items| - 1;
      var front := items[..n];
      LeftoversIffOvertaken(front);
      OvertakesLast(items);
      if j: nat :| Overtakes(front, j) {
        assert Overtakes(items, j);
      }
      if j: nat :| Overtakes(items, j) && j < n {
        assert Overtakes(front, j);
      }
    }
  }

  lemma OvertakesLast(items: seq<Item>)
    requires items != []
    ensures var before := ScanAll(FRESH, items[..|items| - 1]);
      var last := items[|items| - 1];
      (Overtakes(items, |items| - 1)
       <==> (last.kind.Driver? && last.kind.jar.name in before.live
             && last.kind.jar.ts > before.live[last.kind.jar.name].jar.ts))
  {
    var n := |items| - 1;
    var front, last := items[..n], items[n];
    if last.kind.Driver? {
      if last.kind.jar.name in ScanAll(FRESH, front).live {
        var k := LiveIsNewest(front, last.kind.jar.name);
        assert items[k].IsDriverOf(last.kind.jar.name);
      } else if i :| 0 <= i < n && items[i].IsDriverOf(last.kind.jar.name) {
        DriverIsLive(FRESH, front, i);
      }
    }
  }

  /** Line 101 as written: the first driver of an unmapped name dereferences a null entry. */
  function ScanWritten(s: Scan, items: seq<Item>): Option<Scan> {
    if items == [] then Some(s)
    else
      var item := items[|items| - 1];
      match ScanWritten(s, items[..|items| - 1])
      case None => None
      case Some(t) =>
        if item.kind.Driver? && item.kind.jar.name !in t.live then None else Some(ScanStep(t, item))
  }

  /** It survives exactly the listings whose drivers all have names already mapped, and then does
      what the scan is meant to do; a fresh manager survives only listings without drivers. */
  lemma {:induction false} WrittenScanFaults(s: Scan, items: seq<Item>)
    ensures ScanWritten(s, items).Some?
       <==> forall i | 0 <= i < |items| && items[i].kind.Driver? :: items[i].kind.jar.name in s.live
    ensures ScanWritten(s, items).Some? ==>
      ScanWritten(s, items).value == ScanAll(s, items) && ScanAll(s, items).live.Keys == s.live.Keys
  {
    if items != [] {
      WrittenScanFaults(s, items[..|items| - 1]);
    }
  }

  /** Scanning again with a manager that already holds an entry deletes that entry's own file, or any
      other of its name that is not newer: the test asks for a strictly greater timestamp. */
  lemma {:induction false} RescanLosesLiveFile(s: Scan, items: seq<Item>, i: nat)
    requires i < |items| && items[i].kind.Driver?
    requires var name := items[i].kind.jar.name;
      name in s.live && s.live[name].jar.ts >= items[i].kind.jar.ts
    ensures items[i].path in ScanAll(s, items).deleted
    ensures var name := items[i].kind.jar.name;
      name in ScanAll(s, items).live && ScanAll(s, items).live[name].jar.ts >= items[i].kind.jar.ts
  {
    var n := |items| - 1;
    if i < n {
      RescanLosesLiveFile(s, items[..n], i);
    } else {
      StampsOnlyRise(s, items[..n], items[i].kind.jar.name);
    }
  }

  lemma {:induction false} StampsOnlyRise(s: Scan, items: seq<Item>, name: string)
    requires name in s.live
    ensures name in ScanAll(s, items).live
    ensures ScanAll(s, items).live[name].jar.ts >= s.live[name].jar.ts
  {
    if items != [] {
      StampsOnlyRise(s, items[..|items| - 1], name);
    }
  }

  // ----- From directories to listings

  /** What a path inside `dir` shows a scan. */
  function ItemAt(codec: Codec, dir: string, path: string): Item
    requires IsChild(dir, path)
  {
    Item(path, Classify(codec, BaseOf(dir, path)))
  }

  /** `items` is some listing of the files at `paths` inside `dir`. */
  ghost predicate Lists(codec: Codec, dir: string, items: seq<Item>, paths: set<string>) {
    && PathsDistinct(items)
    && (forall i | 0 <= i < |items| ::
          && items[i].path in paths && IsChild(dir, items[i].path)
          && items[i] == ItemAt(codec, dir, items[i].path))
    && (forall p | p in paths && IsChild(dir, p) :: ItemAt(codec, dir, p) in items)
  }

  lemma ListingLists(codec: Codec, dir: string, listing: seq<string>, paths: set<string>)
    requires IsListing(listing, paths, dir)
    ensures Lists(codec, dir, Items(codec, dir, listing), paths)
  {
    var items := Items(codec, dir, listing);
    forall i, j | 0 <= i < j < |items|
      ensures items[i].path != items[j].path
    {
      PathOfInjective(dir, listing[i], listing[j]);
    }
    forall i | 0 <= i < |items|
      ensures items[i].path in paths && IsChild(dir, items[i].path)
      ensures items[i] == ItemAt(codec, dir, items[i].path)
    {
      assert listing[i] in listing;
      ListedIff(paths, dir, listing[i]);
      assert BaseOf(dir, items[i].path) == listing[i];
    }
    forall p | p in paths && IsChild(dir, p)
      ensures ItemAt(codec, dir, p) in items
    {
      var base := BaseOf(dir, p);
      assert base in listing;
      var i :| 0 <= i < |listing| && listing[i] == base;
      assert p == PathOf(dir, base);
      assert items[i] == ItemAt(codec, dir, p);
    }
  }

  /** Whatever a manager already holds: files that are neither temporary nor jars, by their literal
      suffixes, are neither deleted nor condemned, and neither is anything outside the directory. */
  lemma OthersAreSpared(codec: Codec, dir: string, s: Scan, items: seq<Item>, paths: set<string>, p: string)
    requires Lists(codec, dir, items, paths) && p !in s.deleted
    requires IsChild(dir, p) ==> !HasSuffix(BaseOf(dir, p), ".tmp") && !HasSuffix(BaseOf(dir, p), ".jar")
    ensures p !in ScanAll(s, items).deleted
  {
    if p in ScanAll(s, items).deleted {
      var j := DeletedIsListed(s, items, p);
      assert items[j] == ItemAt(codec, dir, p);
      KindsBySuffix(codec, BaseOf(dir, p));
    }
  }

  /** A deleted file was listed, and is not of the other kind. */
  lemma {:induction false} DeletedIsListed(s: Scan, items: seq<Item>, p: string) returns (j: nat)
    requires p !in s.deleted && p in ScanAll(s, items).deleted
    ensures j < |items| && items[j].path == p && !items[j].kind.Other?
  {
    var n := |items| - 1;
    if p in ScanAll(s, items[..n]).deleted {
      j := DeletedIsListed(s, items[..n], p);
    } else {
      j := n;
    }
  }

  /** Every temporary file of the directory is deleted, and every jar whose name cannot be parsed. */
  lemma LeftoversAreDeleted(codec: Codec, dir: string, s: Scan, items: seq<Item>, paths: set<string>, p: string)
    requires Lists(codec, dir, items, paths) && p in paths && IsChild(dir, p)
    requires HasSuffix(BaseOf(dir, p), ".tmp")
      || (HasSuffix(BaseOf(dir, p), ".jar") && Classify(codec, BaseOf(dir, p)).Unparseable?)
    ensures p in ScanAll(s, items).deleted
  {
    var base := BaseOf(dir, p);
    KindsBySuffix(codec, base);
    var j :| 0 <= j < |items| && items[j] == ItemAt(codec, dir, p);
    KindIsDeleted(s, items, j);
  }

  lemma {:induction false} KindIsDeleted(s: Scan, items: seq<Item>, j: nat)
    requires j < |items| && (items[j].kind.Temporary? || items[j].kind.Unparseable?)
    ensures items[j].path in ScanAll(s, items).deleted
  {
    if j < |items| - 1 {
      KindIsDeleted(s, items[..|items| - 1], j);
    }
  }

  /** For a fresh scan: such a file is not condemned either. */
  lemma OthersSurvive(codec: Codec, dir: string, items: seq<Item>, paths: set<string>, p: string)
    requires Lists(codec, dir, items, paths) && p in paths && IsChild(dir, p)
    requires !HasSuffix(BaseOf(dir, p), ".tmp") && !HasSuffix(BaseOf(dir, p), ".jar")
    ensures p !in ScanAll(FRESH, items).Removed()
  {
    var j :| 0 <= j < |items| && items[j] == ItemAt(codec, dir, p);
    RemovedIffDoomed(items, j);
    KindsBySuffix(codec, BaseOf(dir, p));
  }

  /** `init` run again by a fresh process, over the directory an earlier `init` left once condemned
      files are gone, deletes nothing, condemns nothing and maps every name as before. */
  lemma InitIsFixedPoint(codec: Codec, dir: string, paths: set<string>, first: seq<Item>, second: seq<Item>)
    requires Lists(codec, dir, first, paths)
    requires Lists(codec, dir, second, paths - ScanAll(FRESH, first).Removed())
    ensures ScanAll(FRESH, second) == Scan(ScanAll(FRESH, first).live, {}, {})
  {
    forall i | 0 <= i < |second|
      ensures second[i] in first
    {
      assert second[i].path in paths;
    }
    ScanIsFixedPoint(first, second);
  }
}
