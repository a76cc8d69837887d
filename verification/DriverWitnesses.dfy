/** Concrete runs that show the conditions of the safety results are needed, for an arbitrary digest
    function. They start from an empty driver directory, the last one from a single driver. */
module DriverWitnesses {
  import opened Wrappers
  import opened Decimal
  import opened DriverCodec
  import opened DriverProtocol
  import opened DriverInvariants
  import opened DriverSafety
  import opened DriverSolo
  import Download = DownloadUtil
  import Md5

  const EMPTY: State := State([], map[], map[], [], map[], [])

  function Cfg(md5: Bytes -> Md5.Digest, honour: bool): Config {
    Config("d", md5, honour, true, [])
  }

  function SumOf(md5: Bytes -> Md5.Digest, data: Bytes): string {
    Md5.HexEncode(md5(data))
  }

  /** A checksum matches the bytes with that digest only. */
  lemma MatchesOnly(md5: Bytes -> Md5.Digest, a: Bytes, b: Bytes)
    ensures Download.Matches(md5, a, SumOf(md5, b)) <==> md5(a) == md5(b)
  {
    Md5.MatchesIffDecodes(md5(a), SumOf(md5, b));
    Md5.HexRoundTrip(md5(b));
  }

  /** The state of a manager that has given no answer yet. */
  function Quiet(entries: seq<Entry>, e: nat, dir: map<string, nat>, inodes: seq<Bytes>, threads: map<nat, Pc>): State {
    State(entries, map["n" := e], dir, inodes, threads, [])
  }

  function Asked(cfg: Config, checksum: string, now: Int64): Entry {
    NewEntry(cfg, "n", checksum, now)
  }

  /** Thread 1 has asked for a driver and holds its download lock. */
  function Begun(cfg: Config, checksum: string): State {
    Quiet([Asked(cfg, checksum, 1).(owner := Some(1))], 0, map[], [], map[1 := Locked(0)])
  }

  lemma Begins(cfg: Config, s0: Origin, checksum: string)
    requires s0.start == EMPTY
    ensures Reaches(cfg, s0, Begun(cfg, checksum)) && Wf(Begun(cfg, checksum))
  {
    Stay(cfg, s0);
    ByLookup(cfg, s0, EMPTY, 1, "n", checksum, 1);
    var s1 := Quiet([Asked(cfg, checksum, 1)], 0, map[], [], map[1 := Waiting(0)]);
    assert DoLookup(cfg, EMPTY, 1, "n", checksum, 1) == s1;
    ByAcquire(cfg, s0, s1, 1, 0);
    assert SetPc(SetEntry(s1, 0, s1.entries[0].(owner := Some(1))), 1, Locked(0)) == Begun(cfg, checksum);
  }

  // ----- Dropped status (lines 165 and 179)

  /** With the status dropped, a failed open is enough to publish an entry that has no file, in a
      disciplined run. */
  lemma DroppedStatusRun(md5: Bytes -> Md5.Digest) returns (s: State)
    ensures Initial(Cfg(md5, false), EMPTY) && Reaches(Cfg(md5, false), Carefully(EMPTY), s)
    ensures |s.entries| == 1 && s.entries[0].available && IsMapped(s, 0)
    ensures !HasFile(Cfg(md5, false), s, 0)
  {
    var cfg, s0 := Cfg(md5, false), Carefully(EMPTY);
    Begins(cfg, s0, "c");
    ByOpen(cfg, s0, Begun(cfg, "c"), 1, 0, false);
    var s1 := DoOpen(cfg, Begun(cfg, "c"), 1, false);
    ByStores(cfg, s0, s1, 1, 0, false);
    s := SetPc(SetEntry(s1, 0, s1.entries[0].(downloaded := true, available := true)), 1, Published(0));
  }

  // ----- Rename before close (lines 15-19 and 49 of download_util.cpp)

  /** Stopped between the rename and the close, a disciplined run leaves an empty file under a driver's name. */
  lemma CrashWindowRun(md5: Bytes -> Md5.Digest) returns (s: State)
    requires md5([]) != md5([1])
    ensures Initial(Cfg(md5, true), EMPTY) && Reaches(Cfg(md5, true), Carefully(EMPTY), s)
    ensures |s.entries| == 1 && s.entries[0].location in Files(s)
    ensures !HasFile(Cfg(md5, true), s, 0)
  {
    var cfg, sum, s0 := Cfg(md5, true), SumOf(md5, [1]), Carefully(EMPTY);
    Begins(cfg, s0, sum);
    MatchesOnly(md5, [1], [1]);
    MatchesOnly(md5, [], [1]);
    assert Download.Concat([[1]]) == [1];
    Opens(cfg, s0, Begun(cfg, sum), 1, 0);
    Lands(cfg, s0, Begun(cfg, sum), 1, 0, [[1]]);
    s := Landed(cfg, Begun(cfg, sum), 1, 0, [1]);
    LandedIsEmpty(cfg, sum);
  }

  lemma LandedIsEmpty(cfg: Config, sum: string)
    requires |cfg.loaded| == 0 && !Download.Matches(cfg.md5, [], sum)
    ensures var s := Landed(cfg, Begun(cfg, sum), 1, 0, [1]);
      |s.entries| == 1 && s.entries[0].location in Files(s) && !HasFile(cfg, s, 0)
  {
  }

  // ----- The shared temporary path (line 176)

  /** Thread 1 streams for the first entry; the name has since been asked for under another checksum
      and then again under the first, by thread 3, which holds the lock of the third entry. */
  function Shared(cfg: Config, sum: string): State {
    Quiet([Asked(cfg, sum, 1).(owner := Some(1), condemned := true), Asked(cfg, "d", 2).(condemned := true),
           Asked(cfg, sum, 3).(owner := Some(3))],
          2, map[TmpOf(cfg, Asked(cfg, sum, 1)) := 0], [[]],
          map[1 := Writing(0, 0, [], 0), 2 := Waiting(1), 3 := Locked(2)])
  }

  /** Asking for the name under another checksum: the mapped entry is condemned and replaced. */
  lemma Replaces(cfg: Config, s0: Origin, front: seq<Entry>, last: Entry, dir: map<string, nat>,
                 inodes: seq<Bytes>, threads: map<nat, Pc>, t: nat, checksum: string, now: Int64)
    requires s0.Freely?
    requires var s := Quiet(front + [last], |front|, dir, inodes, threads);
      Reaches(cfg, s0, s) && Wf(s) && t !in threads
    requires last.checksum != checksum
    ensures var s' := Quiet(front + [last.(condemned := true)] + [Asked(cfg, checksum, now)], |front| + 1, dir, inodes,
                            threads[t := Waiting(|front| + 1)]);
      Reaches(cfg, s0, s') && Wf(s')
  {
    var s := Quiet(front + [last], |front|, dir, inodes, threads);
    ByLookup(cfg, s0, s, t, "n", checksum, now);
    assert (front + [last])[|front| := last.(condemned := true)] == front + [last.(condemned := true)];
    assert s.emap["n" := |front| + 1] == map["n" := |front| + 1];
  }

  lemma ReplacesFirst(cfg: Config, s0: Origin, first: Entry, dir: map<string, nat>, inodes: seq<Bytes>,
                      threads: map<nat, Pc>, ts2: Int64)
    requires s0.Freely?
    requires var s := Quiet([first], 0, dir, inodes, threads); Reaches(cfg, s0, s) && Wf(s)
    requires first.checksum != "d" && 2 !in threads
    ensures var s' := Quiet([first.(condemned := true)] + [Asked(cfg, "d", ts2)], 1, dir, inodes,
                            threads[2 := Waiting(1)]);
      Reaches(cfg, s0, s') && Wf(s')
  {
    assert [] + [first] == [first] && [] + [first.(condemned := true)] == [first.(condemned := true)];
    Replaces(cfg, s0, [], first, dir, inodes, threads, 2, "d", ts2);
  }

  /** Two replacements in a row, the second one's thread taking its download lock. */
  lemma ReplacesTwice(cfg: Config, s0: Origin, first: Entry, dir: map<string, nat>, inodes: seq<Bytes>,
                      threads: map<nat, Pc>, sum: string, ts2: Int64, ts3: Int64) returns (s': State)
    requires s0.Freely?
    requires var s := Quiet([first], 0, dir, inodes, threads); Reaches(cfg, s0, s) && Wf(s)
    requires first.checksum == sum != "d" && 2 !in threads && 3 !in threads
    ensures Reaches(cfg, s0, s') && Wf(s')
    ensures s' == Quiet(
      [first.(condemned := true), Asked(cfg, "d", ts2).(condemned := true), Asked(cfg, sum, ts3).(owner := Some(3))],
      2, dir, inodes, threads[2 := Waiting(1)][3 := Locked(2)])
  {
    ReplacesFirst(cfg, s0, first, dir, inodes, threads, ts2);
    var front, second, third := [first.(condemned := true)], Asked(cfg, "d", ts2), Asked(cfg, sum, ts3);
    s' := ReplacesSecond(cfg, s0, front, second, third, dir, inodes, threads[2 := Waiting(1)], ts3);
    assert front + [second.(condemned := true)] + [third.(owner := Some(3))]
        == [first.(condemned := true), second.(condemned := true), third.(owner := Some(3))];
  }

  lemma ReplacesSecond(cfg: Config, s0: Origin, front: seq<Entry>, second: Entry, third: Entry, dir: map<string, nat>,
                       inodes: seq<Bytes>, threads: map<nat, Pc>, ts3: Int64) returns (s': State)
    requires s0.Freely?
    requires var s := Quiet(front + [second], |front|, dir, inodes, threads); Reaches(cfg, s0, s) && Wf(s)
    requires |front| == 1 && 3 !in threads && third == Asked(cfg, third.checksum, ts3)
    requires second.checksum != third.checksum
    ensures Reaches(cfg, s0, s') && Wf(s')
    ensures s' == Quiet(front + [second.(condemned := true)] + [third.(owner := Some(3))], 2, dir, inodes,
                        threads[3 := Locked(2)])
  {
    Replaces(cfg, s0, front, second, dir, inodes, threads, 3, third.checksum, ts3);
    s' := Locks(cfg, s0, front + [second.(condemned := true)], third, dir, inodes, threads);
  }

  lemma Locks(cfg: Config, s0: Origin, front: seq<Entry>, last: Entry, dir: map<string, nat>, inodes: seq<Bytes>,
              threads: map<nat, Pc>) returns (s': State)
    requires var s := Quiet(front + [last], |front|, dir, inodes, threads[3 := Waiting(|front|)]);
      Reaches(cfg, s0, s) && Wf(s)
    requires last.owner == None
    ensures s' == Quiet(front + [last.(owner := Some(3))], |front|, dir, inodes, threads[3 := Locked(|front|)])
    ensures Reaches(cfg, s0, s') && Wf(s')
  {
    var s := Quiet(front + [last], |front|, dir, inodes, threads[3 := Waiting(|front|)]);
    ByAcquire(cfg, s0, s, 3, |front|);
    s' := Quiet(front + [last.(owner := Some(3))], |front|, dir, inodes, threads[3 := Locked(|front|)]);
    assert (front + [last])[|front| := last.(owner := Some(3))] == front + [last.(owner := Some(3))];
    assert threads[3 := Waiting(|front|)][3 := Locked(|front|)] == threads[3 := Locked(|front|)];
  }

  lemma Shares(cfg: Config, sum: string)
    requires sum != "d"
    ensures Reaches(cfg, Freely(EMPTY), Shared(cfg, sum)) && Wf(Shared(cfg, sum))
  {
    var dir := map[TmpOf(cfg, Asked(cfg, sum, 1)) := 0];
    Begins(cfg, Freely(EMPTY), sum);
    ByOpen(cfg, Freely(EMPTY), Begun(cfg, sum), 1, 0, true);
    var s1 := Quiet([Asked(cfg, sum, 1).(owner := Some(1))], 0, dir, [[]], map[1 := Writing(0, 0, [], 0)]);
    assert s1 == DoOpen(cfg, Begun(cfg, sum), 1, true);
    var s' := ReplacesTwice(cfg, Freely(EMPTY), Asked(cfg, sum, 1).(owner := Some(1)), dir, [[]],
                            map[1 := Writing(0, 0, [], 0)], sum, 2, 3);
  }

  /** Thread 3 downloads, verifies and publishes; thread 1, still writing to the same file, then
      overwrites what was published. The damaged entry is mapped, available and uncondemned. */
  lemma SharedTmpRun(md5: Bytes -> Md5.Digest) returns (s: State)
    requires md5([1]) != md5([2])
    ensures Initial(Cfg(md5, true), EMPTY) && Reaches(Cfg(md5, true), Freely(EMPTY), s)
    ensures |s.entries| == 3 && s.entries[2].available && IsMapped(s, 2)
    ensures !HasFile(Cfg(md5, true), s, 2)
  {
    var cfg, sum := Cfg(md5, true), SumOf(md5, [1]);
    MatchesOnly(md5, [1], [1]);
    MatchesOnly(md5, [2], [1]);
    assert |sum| == 2 * |md5([1])|;
    Shares(cfg, sum);
    s := Damages(cfg, sum);
  }

  lemma Damages(cfg: Config, sum: string) returns (s: State)
    requires sum != "d" && |cfg.loaded| == 0 && Reaches(cfg, Freely(EMPTY), Shared(cfg, sum)) && Wf(Shared(cfg, sum))
    requires Download.Matches(cfg.md5, [1], sum) && !Download.Matches(cfg.md5, [2], sum)
    ensures Reaches(cfg, Freely(EMPTY), s)
    ensures |s.entries| == 3 && s.entries[2].available && IsMapped(s, 2) && !HasFile(cfg, s, 2)
  {
    var s1 := Shared(cfg, sum);
    assert Download.Concat([[1]]) == [1] && [1][..1] == [1];
    Opens(cfg, Freely(EMPTY), s1, 3, 2);
    Downloads(cfg, Freely(EMPTY), s1, 3, 2, [[1]], 1);
    s := Overwrites(cfg, Downloaded(cfg, s1, 3, 2, [1], None), [2]);
  }

  lemma Overwrites(cfg: Config, s: State, data: Bytes) returns (s': State)
    requires Reaches(cfg, Freely(EMPTY), s) && Wf(s) && At(s, 1) && s.threads[1] == Writing(0, 0, [], 0)
    requires |s.inodes| == 1 && |s.inodes[0]| == |data| && data != []
    ensures Reaches(cfg, Freely(EMPTY), s')
    ensures s' == s.(inodes := [data], threads := s.threads[1 := Writing(0, 0, data, |data|)])
  {
    ByDeliver(cfg, Freely(EMPTY), s, 1, s.threads[1], data);
    var s1 := SetPc(s, 1, Writing(0, 0, [] + data, 0));
    assert [] + data == data;
    ByFlush(cfg, Freely(EMPTY), s1, 1, |data|);
    s' := DoFlush(s1, 1, |data|);
    assert data[0..|data|] == data;
    assert WriteAt(s.inodes[0], 0, data) == data;
    assert s.inodes[0 := data] == [data];
  }

  // ----- Two entries of one name in the same millisecond

  /** A manager that found one driver at start-up. */
  function Found(cfg: Config, sum: string): State
    requires |cfg.loaded| == 1
  {
    var entry := Asked(cfg, sum, 1).(available := true, downloaded := true, completed := true);
    Quiet([entry], 0, map[entry.location := 0], [cfg.loaded[0]], map[])
  }

  lemma FoundIsInitial(cfg: Config, sum: string)
    requires |cfg.loaded| == 1 && !HasUnderscore(sum)
    ensures Initial(cfg, Found(cfg, sum))
  {
    LocationAgrees(cfg.dir, Jar("n", sum, 1));
    var s := Found(cfg, sum);
    assert forall p | p in s.dir :: IsAt(cfg, s, 0, p);
  }

  /** The name is asked for under another checksum and again under the first, both in the millisecond
      of the first entry's stamp: destroying the first entry removes the third one's file. */
  lemma SameStampRun(cfg: Config, sum: string, data: Bytes) returns (s: State)
    requires cfg.reap && |cfg.loaded| == 1 && sum != "d" && !HasUnderscore(sum)
    requires data != [] && Download.Matches(cfg.md5, data, sum)
    ensures Initial(cfg, Found(cfg, sum)) && Reaches(cfg, Freely(Found(cfg, sum)), s)
    ensures |s.entries| == 3 && s.entries[2].available && IsMapped(s, 2)
    ensures !HasFile(cfg, s, 2)
  {
    FoundIsInitial(cfg, sum);
    var s0 := Found(cfg, sum);
    Stay(cfg, Freely(s0));
    var s1 := ReplacesTwice(cfg, Freely(s0), s0.entries[0], s0.dir, s0.inodes, map[], sum, 1, 1);
    s := DownloadsAndReaps(cfg, Freely(s0), s1, data);
  }

  /** Thread 3 publishes the third entry, and the first, which shares its location, is destroyed. */
  lemma DownloadsAndReaps(cfg: Config, s0: Origin, s1: State, data: Bytes) returns (s: State)
    requires s0.Freely? && cfg.reap && Reaches(cfg, s0, s1) && Wf(s1) && |s1.entries| == 3
    requires s1.threads == map[2 := Waiting(1)][3 := Locked(2)] && s1.emap == map["n" := 2]
    requires s1.entries[0].condemned && !s1.entries[0].destroyed && !s1.entries[2].downloaded
    requires s1.entries[2].location == s1.entries[0].location && s1.entries[2].name == "n"
    requires data != [] && Download.Matches(cfg.md5, data, s1.entries[2].checksum)
    ensures Reaches(cfg, s0, s)
    ensures |s.entries| == 3 && s.entries[2].available && IsMapped(s, 2) && !HasFile(cfg, s, 2)
  {
    assert Download.Concat([data]) == data;
    assert data[..|data|] == data;
    Opens(cfg, s0, s1, 3, 2);
    Downloads(cfg, s0, s1, 3, 2, [data], |data|);
    var s2 := Downloaded(cfg, s1, 3, 2, data, s1.entries[2].cut);
    ByReap(cfg, s0, s2, 0);
    s := DoReap(cfg, s2, 0);
  }
}
