/** Runs built one step at a time, and what a whole download by one thread amounts to. */
module DriverSolo {
  import opened Wrappers
  import opened DriverProtocol
  import opened DriverInvariants
  import opened DriverScan
  import opened DriverCalls
  import opened Decimal
  import Download = DownloadUtil

  /** Where a run starts, and whether it is to be a disciplined one. */
  datatype Origin = Freely(start: State) | Carefully(start: State)

  /** Some such run leads to the state. */
  ghost predicate Reaches(cfg: Config, s0: Origin, s': State) {
    exists ss: seq<State>, acts: seq<Action> :: Joins(cfg, s0, ss, acts, s')
  }

  ghost predicate Joins(cfg: Config, s0: Origin, ss: seq<State>, acts: seq<Action>, s': State) {
    && Run(cfg, ss, acts) && ss[0] == s0.start && ss[|acts|] == s'
    && (s0.Carefully? ==> DisciplinedRun(cfg, ss, acts))
  }

  lemma Stay(cfg: Config, s0: Origin)
    ensures Reaches(cfg, s0, s0.start)
  {
    assert Joins(cfg, s0, [s0.start], [], s0.start);
  }

  lemma Step(cfg: Config, s0: Origin, s: State, a: Action, next: State)
    requires Reaches(cfg, s0, s) && Enabled(cfg, s, a) && next == Apply(cfg, s, a)
    requires s0.Carefully? ==> Disciplined(cfg, s, a)
    ensures Reaches(cfg, s0, next)
  {
    var ss: seq<State>, acts: seq<Action> :| Joins(cfg, s0, ss, acts, s);
    Extends(cfg, s0, ss, acts, s, a, next);
  }

  lemma Extends(cfg: Config, s0: Origin, ss: seq<State>, acts: seq<Action>, s: State, a: Action, next: State)
    requires Joins(cfg, s0, ss, acts, s) && Enabled(cfg, s, a) && next == Apply(cfg, s, a)
    requires s0.Carefully? ==> Disciplined(cfg, s, a)
    ensures Joins(cfg, s0, ss + [next], acts + [a], next)
  {
  }

  lemma ByLookup(cfg: Config, s0: Origin, s: State, t: nat, name: string, checksum: string, now: Int64)
    requires Reaches(cfg, s0, s) && Wf(s) && !At(s, t)
    requires s0.Carefully? && Creates(s, name, checksum) ==> LocationFree(cfg, s, name, checksum, now)
    ensures Reaches(cfg, s0, DoLookup(cfg, s, t, name, checksum, now)) && Wf(DoLookup(cfg, s, t, name, checksum, now))
  {
    KeepsWf(cfg, s, Lookup(t, name, checksum, now));
    Step(cfg, s0, s, Lookup(t, name, checksum, now), DoLookup(cfg, s, t, name, checksum, now));
  }

  lemma ByAcquire(cfg: Config, s0: Origin, s: State, t: nat, e: nat)
    requires Reaches(cfg, s0, s) && Wf(s) && At(s, t) && s.threads[t] == Waiting(e)
    requires s.entries[e].owner.None?
    ensures var s' := SetPc(SetEntry(s, e, s.entries[e].(owner := Some(t))), t, Locked(e));
      Reaches(cfg, s0, s') && Wf(s')
  {
    Step(cfg, s0, s, Acquire(t), SetPc(SetEntry(s, e, s.entries[e].(owner := Some(t))), t, Locked(e)));
  }

  lemma ByOpen(cfg: Config, s0: Origin, s: State, t: nat, e: nat, ok: bool)
    requires Reaches(cfg, s0, s) && Wf(s) && At(s, t) && s.threads[t] == Locked(e) && !s.entries[e].downloaded
    requires s0.Carefully? && ok ==> TmpUnused(cfg, s, TmpOf(cfg, s.entries[e]))
    ensures Reaches(cfg, s0, DoOpen(cfg, s, t, ok)) && Wf(DoOpen(cfg, s, t, ok))
  {
    Step(cfg, s0, s, Open(t, ok), DoOpen(cfg, s, t, ok));
  }

  /** The stream after another non-empty chunk. */
  function Sent(pc: Pc, data: Bytes): Pc
    requires pc.Writing?
  {
    Writing(pc.e, pc.ino, pc.sent + data, pc.flushed)
  }

  lemma ByDeliver(cfg: Config, s0: Origin, s: State, t: nat, pc: Pc, data: Bytes)
    requires Reaches(cfg, s0, s) && Wf(s) && At(s, t) && s.threads[t] == pc && pc.Writing? && data != []
    ensures Reaches(cfg, s0, SetPc(s, t, Sent(pc, data))) && Wf(SetPc(s, t, Sent(pc, data)))
  {
    Step(cfg, s0, s, Deliver(t, data), SetPc(s, t, Sent(pc, data)));
  }

  lemma ByFlush(cfg: Config, s0: Origin, s: State, t: nat, upto: nat)
    requires Reaches(cfg, s0, s) && Wf(s) && At(s, t) && HasStream(s.threads[t])
    requires s.threads[t].flushed <= upto <= |s.threads[t].sent|
    ensures Reaches(cfg, s0, DoFlush(s, t, upto)) && Wf(DoFlush(s, t, upto))
  {
    Step(cfg, s0, s, Flush(t, upto), DoFlush(s, t, upto));
  }

  lemma ByFinish(cfg: Config, s0: Origin, s: State, t: nat, renameOk: bool)
    requires Reaches(cfg, s0, s) && Wf(s) && At(s, t) && s.threads[t].Writing?
    ensures Reaches(cfg, s0, DoFinish(cfg, s, t, renameOk)) && Wf(DoFinish(cfg, s, t, renameOk))
  {
    Step(cfg, s0, s, Finish(t, renameOk), DoFinish(cfg, s, t, renameOk));
  }

  lemma ByWriteFailure(cfg: Config, s0: Origin, s: State, t: nat, chunk: Bytes)
    requires Reaches(cfg, s0, s) && Wf(s) && At(s, t) && s.threads[t].Writing?
    ensures var s' := SetPc(s, t, ToClose(s.threads[t], false)); Reaches(cfg, s0, s') && Wf(s')
  {
    var a := if chunk == [] then Deliver(t, []) else Fault(t);
    Step(cfg, s0, s, a, SetPc(s, t, ToClose(s.threads[t], false)));
  }

  lemma ByLeave(cfg: Config, s0: Origin, s: State, t: nat)
    requires Reaches(cfg, s0, s) && Wf(s) && At(s, t) && MayLeave(cfg, s, s.threads[t])
    ensures Reaches(cfg, s0, DoLeave(s, t)) && Wf(DoLeave(s, t))
  {
    Step(cfg, s0, s, Leave(t), DoLeave(s, t));
  }

  lemma ByClose(cfg: Config, s0: Origin, s: State, t: nat, upto: nat)
    requires Reaches(cfg, s0, s) && Wf(s) && At(s, t) && s.threads[t].Closing?
    requires s.threads[t].flushed <= upto <= |s.threads[t].sent|
    ensures var s' := DoClose(s, t, upto); Reaches(cfg, s0, s') && Wf(s')
  {
    Step(cfg, s0, s, Close(t, upto), DoClose(s, t, upto));
  }

  lemma ByStores(cfg: Config, s0: Origin, s: State, t: nat, e: nat, ok: bool)
    requires Reaches(cfg, s0, s) && Wf(s) && At(s, t) && s.threads[t] == Fetched(e, ok) && (ok || !cfg.honour)
    ensures var s' := SetPc(SetEntry(s, e, s.entries[e].(downloaded := true, available := true)), t, Published(e));
      Reaches(cfg, s0, s') && Wf(s')
  {
    var mid := SetPc(SetEntry(s, e, s.entries[e].(downloaded := true)), t, Flagged(e));
    Step(cfg, s0, s, StoreDownloaded(t), mid);
    StoresAvailable(cfg, s0, mid, t, e);
    assert SetPc(SetEntry(mid, e, mid.entries[e].(available := true)), t, Published(e))
        == SetPc(SetEntry(s, e, s.entries[e].(downloaded := true, available := true)), t, Published(e));
  }

  lemma StoresAvailable(cfg: Config, s0: Origin, s: State, t: nat, e: nat)
    requires Reaches(cfg, s0, s) && Wf(s) && At(s, t) && s.threads[t] == Flagged(e)
    ensures var s' := SetPc(SetEntry(s, e, s.entries[e].(available := true)), t, Published(e));
      Reaches(cfg, s0, s') && Wf(s')
  {
    Step(cfg, s0, s, StoreAvailable(t), SetPc(SetEntry(s, e, s.entries[e].(available := true)), t, Published(e)));
  }

  lemma ByReap(cfg: Config, s0: Origin, s: State, e: nat)
    requires Reaches(cfg, s0, s) && Wf(s) && e < |s.entries| && s.entries[e].condemned && !s.entries[e].destroyed
    requires e !in s.emap.Values && forall t | t in s.threads :: s.threads[t].e != e
    ensures Reaches(cfg, s0, DoReap(cfg, s, e)) && Wf(DoReap(cfg, s, e))
  {
    Step(cfg, s0, s, Reap(e), DoReap(cfg, s, e));
  }

  /** What a close that got the first `upto` bytes down puts on record. */
  function CutAt(entry: Entry, data: Bytes, upto: nat): Option<Bytes>
    requires upto <= |data|
  {
    if upto < |data| then Some(data[..upto]) else entry.cut
  }

  /** What a whole successful download by one thread does to the state. */
  function Downloaded(cfg: Config, s: State, t: nat, e: nat, data: Bytes, record: Option<Bytes>): State
    requires Wf(s) && e < |s.entries|
  {
    var entry := s.entries[e];
    var tmp := TmpOf(cfg, entry);
    var ino := if tmp in s.dir then s.dir[tmp] else |s.inodes|;
    s.(entries := s.entries[e := entry.(completed := true, cut := record, downloaded := true, available := true)],
       dir := (s.dir - {tmp})[entry.location := ino],
       inodes := if tmp in s.dir then s.inodes[ino := data] else s.inodes + [data],
       threads := s.threads[t := Published(e)])
  }

  /** The state once the thread has renamed its file, nothing flushed yet. */
  function Landed(cfg: Config, s: State, t: nat, e: nat, data: Bytes): State
    requires Wf(s) && e < |s.entries|
  {
    var entry := s.entries[e];
    var tmp := TmpOf(cfg, entry);
    var ino := if tmp in s.dir then s.dir[tmp] else |s.inodes|;
    s.(entries := s.entries[e := entry.(completed := true)],
       dir := (s.dir - {tmp})[entry.location := ino],
       inodes := if tmp in s.dir then s.inodes[ino := []] else s.inodes + [[]],
       threads := s.threads[t := Closing(e, ino, data, 0, true)])
  }

  /** The state once the thread has opened its stream. */
  function Opened(cfg: Config, s: State, t: nat, e: nat): State
    requires Wf(s) && e < |s.entries|
  {
    WithTmp(cfg, s, t, e, [], Writing(e, TmpIno(cfg, s, e), [], 0))
  }

  /** Delivering every chunk and renaming, when the digest matches. */
  lemma Lands(cfg: Config, s0: Origin, s: State, t: nat, e: nat, chunks: seq<Bytes>)
    requires Wf(s) && At(s, t) && s.threads[t] == Locked(e)
    requires Reaches(cfg, s0, Opened(cfg, s, t, e)) && Wf(Opened(cfg, s, t, e))
    requires forall i | 0 <= i < |chunks| :: chunks[i] != []
    requires Download.Matches(cfg.md5, Download.Concat(chunks), s.entries[e].checksum)
    ensures var s' := Landed(cfg, s, t, e, Download.Concat(chunks)); Reaches(cfg, s0, s') && Wf(s')
  {
    var data := Download.Concat(chunks);
    StreamsTo(cfg, s0, s, t, e, chunks);
    ByFinish(cfg, s0, WithTmp(cfg, s, t, e, [], Writing(e, TmpIno(cfg, s, e), data, 0)), t, true);
    LandedState(cfg, s, t, e, data);
  }

  lemma LandedState(cfg: Config, s: State, t: nat, e: nat, data: Bytes)
    requires Wf(s) && At(s, t) && s.threads[t] == Locked(e)
    requires Download.Matches(cfg.md5, data, s.entries[e].checksum)
    requires Wf(WithTmp(cfg, s, t, e, [], Writing(e, TmpIno(cfg, s, e), data, 0)))
    ensures DoFinish(cfg, WithTmp(cfg, s, t, e, [], Writing(e, TmpIno(cfg, s, e), data, 0)), t, true)
         == Landed(cfg, s, t, e, data)
  {
    var tmp := TmpOf(cfg, s.entries[e]);
    assert s.dir[tmp := TmpIno(cfg, s, e)] - {tmp} == s.dir - {tmp};
  }

  /** A whole successful download by a thread that has opened its stream, its close getting the first
      `upto` bytes down. */
  lemma Downloads(cfg: Config, s0: Origin, s: State, t: nat, e: nat, chunks: seq<Bytes>, upto: nat)
    requires Wf(s) && At(s, t) && s.threads[t] == Locked(e)
    requires Reaches(cfg, s0, Opened(cfg, s, t, e)) && Wf(Opened(cfg, s, t, e))
    requires forall i | 0 <= i < |chunks| :: chunks[i] != []
    requires Download.Matches(cfg.md5, Download.Concat(chunks), s.entries[e].checksum)
    requires upto <= |Download.Concat(chunks)|
    ensures var data := Download.Concat(chunks);
      var s' := Downloaded(cfg, s, t, e, data[..upto], CutAt(s.entries[e], data, upto));
      Reaches(cfg, s0, s') && Wf(s')
  {
    var data := Download.Concat(chunks);
    Lands(cfg, s0, s, t, e, chunks);
    var s1 := Landed(cfg, s, t, e, data);
    ByClose(cfg, s0, s1, t, upto);
    ByStores(cfg, s0, DoClose(s1, t, upto), t, e, true);
    DownloadedState(cfg, s, t, e, data, upto);
  }

  lemma DownloadedState(cfg: Config, s: State, t: nat, e: nat, data: Bytes, upto: nat)
    requires Wf(s) && At(s, t) && s.threads[t].e == e && Wf(Landed(cfg, s, t, e, data)) && upto <= |data|
    ensures var s2 := DoClose(Landed(cfg, s, t, e, data), t, upto);
      Downloaded(cfg, s, t, e, data[..upto], CutAt(s.entries[e], data, upto))
        == SetPc(SetEntry(s2, e, s2.entries[e].(downloaded := true, available := true)), t, Published(e))
  {
    assert data[0..upto] == data[..upto];
    assert WriteAt([], 0, data[..upto]) == data[..upto];
  }

  // ----- A call with the manager to itself is the sequential call

  function ViewOf(entry: Entry): EntryView {
    EntryView(JarOf(entry), entry.location, entry.downloaded, entry.available, entry.condemned)
  }

  function WorldOf(s: State): World {
    World(map n | n in s.emap && s.emap[n] < |s.entries| :: ViewOf(s.entries[s.emap[n]]), Files(s))
  }

  lemma SetPcTwice(s: State, t: nat, first: Pc, second: Pc)
    ensures SetPc(SetPc(s, t, first), t, second) == SetPc(s, t, second)
  {
    assert s.threads[t := first][t := second] == s.threads[t := second];
  }

  lemma SentTwice(pc: Pc, data: Bytes, last: Bytes)
    requires pc.Writing?
    ensures Sent(Sent(pc, data), last) == Sent(pc, data + last) && Sent(pc, []) == pc
  {
    assert pc.sent + data + last == pc.sent + (data + last);
    assert pc.sent + [] == pc.sent;
  }

  lemma ByDeliverMore(cfg: Config, s0: Origin, s: State, t: nat, pc: Pc, data: Bytes, last: Bytes)
    requires pc.Writing? && last != []
    requires Reaches(cfg, s0, SetPc(s, t, Sent(pc, data))) && Wf(SetPc(s, t, Sent(pc, data)))
    ensures var s' := SetPc(s, t, Sent(pc, data + last)); Reaches(cfg, s0, s') && Wf(s')
  {
    ByDeliver(cfg, s0, SetPc(s, t, Sent(pc, data)), t, Sent(pc, data), last);
    SetPcTwice(s, t, Sent(pc, data), Sent(Sent(pc, data), last));
    SentTwice(pc, data, last);
  }

  /** Delivering non-empty chunks one by one is delivering their concatenation. */
  lemma {:induction false} ByDeliverAll(cfg: Config, s0: Origin, s: State, t: nat, pc: Pc, chunks: seq<Bytes>)
    requires pc.Writing? && Reaches(cfg, s0, SetPc(s, t, Sent(pc, []))) && Wf(SetPc(s, t, Sent(pc, [])))
    requires forall i | 0 <= i < |chunks| :: chunks[i] != []
    ensures var s' := SetPc(s, t, Sent(pc, Download.Concat(chunks))); Reaches(cfg, s0, s') && Wf(s')
  {
    if chunks != [] {
      var front, last := chunks[..|chunks| - 1], chunks[|chunks| - 1];
      ByDeliverAll(cfg, s0, s, t, pc, front);
      ByDeliverMore(cfg, s0, s, t, pc, Download.Concat(front), last);
    }
  }

  /** The directory with a file of that content behind the temporary path. */
  function WithTmp(cfg: Config, s: State, t: nat, e: nat, content: Bytes, pc: Pc): State
    requires Wf(s) && e < |s.entries|
  {
    var tmp := TmpOf(cfg, s.entries[e]);
    var ino := TmpIno(cfg, s, e);
    s.(dir := s.dir[tmp := ino],
       inodes := if tmp in s.dir then s.inodes[ino := content] else s.inodes + [content],
       threads := s.threads[t := pc])
  }

  function TmpIno(cfg: Config, s: State, e: nat): nat
    requires Wf(s) && e < |s.entries|
  {
    var tmp := TmpOf(cfg, s.entries[e]);
    if tmp in s.dir then s.dir[tmp] else |s.inodes|
  }

  lemma Opens(cfg: Config, s0: Origin, s: State, t: nat, e: nat)
    requires Reaches(cfg, s0, s) && Wf(s) && At(s, t) && s.threads[t] == Locked(e) && !s.entries[e].downloaded
    requires s0.Carefully? ==> TmpUnused(cfg, s, TmpOf(cfg, s.entries[e]))
    ensures Reaches(cfg, s0, Opened(cfg, s, t, e)) && Wf(Opened(cfg, s, t, e))
  {
    ByOpen(cfg, s0, s, t, e, true);
    OpenedState(cfg, s, t, e);
  }

  lemma StreamsTo(cfg: Config, s0: Origin, s: State, t: nat, e: nat, chunks: seq<Bytes>)
    requires Wf(s) && At(s, t) && s.threads[t] == Locked(e)
    requires Reaches(cfg, s0, Opened(cfg, s, t, e)) && Wf(Opened(cfg, s, t, e))
    requires forall i | 0 <= i < |chunks| :: chunks[i] != []
    ensures var s' := WithTmp(cfg, s, t, e, [], Writing(e, TmpIno(cfg, s, e), Download.Concat(chunks), 0));
      Reaches(cfg, s0, s') && Wf(s')
  {
    var pc := Writing(e, TmpIno(cfg, s, e), [], 0);
    SentTwice(pc, [], []);
    SetPcAfter(cfg, s, t, e, pc, pc);
    ByDeliverAll(cfg, s0, Opened(cfg, s, t, e), t, pc, chunks);
    SetPcAfter(cfg, s, t, e, pc, Sent(pc, Download.Concat(chunks)));
    SentFromEmpty(e, TmpIno(cfg, s, e), Download.Concat(chunks));
  }

  lemma SentFromEmpty(e: nat, ino: nat, data: Bytes)
    ensures Sent(Writing(e, ino, [], 0), data) == Writing(e, ino, data, 0)
  {
    assert [] + data == data;
  }

  lemma SetPcAfter(cfg: Config, s: State, t: nat, e: nat, first: Pc, second: Pc)
    requires Wf(s) && e < |s.entries|
    ensures SetPc(WithTmp(cfg, s, t, e, [], first), t, second) == WithTmp(cfg, s, t, e, [], second)
  {
    assert s.threads[t := first][t := second] == s.threads[t := second];
  }

  lemma OpenedState(cfg: Config, s: State, t: nat, e: nat)
    requires Wf(s) && At(s, t) && s.threads[t] == Locked(e)
    ensures DoOpen(cfg, s, t, true) == WithTmp(cfg, s, t, e, [], Writing(e, TmpIno(cfg, s, e), [], 0))
  {
    var tmp := TmpOf(cfg, s.entries[e]);
    if tmp in s.dir {
      assert s.dir[tmp := s.dir[tmp]] == s.dir;
    }
  }

  /** Closing a stream that has flushed nothing leaves its whole content in the file. */
  lemma FailedClose(cfg: Config, s0: Origin, s: State, t: nat, e: nat, sent: Bytes)
    requires Wf(s) && e < |s.entries|
    requires var s1 := WithTmp(cfg, s, t, e, [], Closing(e, TmpIno(cfg, s, e), sent, 0, false));
      Reaches(cfg, s0, s1) && Wf(s1)
    ensures var s2 := WithTmp(cfg, s, t, e, sent, Fetched(e, false)); Reaches(cfg, s0, s2) && Wf(s2)
  {
    var ino := TmpIno(cfg, s, e);
    var s1 := WithTmp(cfg, s, t, e, [], Closing(e, ino, sent, 0, false));
    ByClose(cfg, s0, s1, t, |sent|);
    FailedCloseState(cfg, s, t, e, sent);
  }

  lemma FailedCloseState(cfg: Config, s: State, t: nat, e: nat, sent: Bytes)
    requires Wf(s) && e < |s.entries|
    requires Wf(WithTmp(cfg, s, t, e, [], Closing(e, TmpIno(cfg, s, e), sent, 0, false)))
    ensures DoClose(WithTmp(cfg, s, t, e, [], Closing(e, TmpIno(cfg, s, e), sent, 0, false)), t, |sent|)
         == WithTmp(cfg, s, t, e, sent, Fetched(e, false))
  {
    var ino := TmpIno(cfg, s, e);
    var s1 := WithTmp(cfg, s, t, e, [], Closing(e, ino, sent, 0, false));
    var s2 := WithTmp(cfg, s, t, e, sent, Fetched(e, false));
    assert sent[0..|sent|] == sent && WriteAt([], 0, sent) == sent;
    assert s1.inodes[ino := sent] == s2.inodes && s1.entries[e := s1.entries[e]] == s1.entries;
    assert s1.threads[t := Fetched(e, false)] == s2.threads;
  }

  /** The temporary path aside, a failed download leaves the directory as it was. */
  lemma FilesWithTmp(cfg: Config, s: State, t: nat, e: nat, content: Bytes, pc: Pc)
    requires Wf(s) && NoLinks(s) && e < |s.entries|
    ensures var tmp := TmpOf(cfg, s.entries[e]);
      Files(WithTmp(cfg, s, t, e, content, pc)) - {tmp} == Files(s) - {tmp}
  {
  }

  lemma FilesDownloaded(cfg: Config, s: State, t: nat, e: nat, content: Bytes, record: Option<Bytes>)
    requires Wf(s) && NoLinks(s) && e < |s.entries|
    requires s.entries[e].location != TmpOf(cfg, s.entries[e])
    ensures var tmp := TmpOf(cfg, s.entries[e]);
      Files(Downloaded(cfg, s, t, e, content, record)) - {tmp} == Files(s)[s.entries[e].location := content] - {tmp}
  {
    var tmp := TmpOf(cfg, s.entries[e]);
    var after, expected := Files(Downloaded(cfg, s, t, e, content, record)), Files(s)[s.entries[e].location := content];
    forall p | p != tmp
      ensures SameAt(after, expected, p)
    {
      DownloadedAt(cfg, s, t, e, content, record, p);
    }
    SameAside(after, expected, tmp);
  }

  predicate SameAt(a: map<string, Bytes>, b: map<string, Bytes>, p: string) {
    (p in a <==> p in b) && (p in a && p in b ==> a[p] == b[p])
  }

  lemma SameAside(a: map<string, Bytes>, b: map<string, Bytes>, tmp: string)
    requires forall p | p != tmp :: SameAt(a, b, p)
    ensures a - {tmp} == b - {tmp}
  {
    forall p | p != tmp
      ensures p in a - {tmp} <==> p in b - {tmp}
      ensures p in a - {tmp} ==> (a - {tmp})[p] == (b - {tmp})[p]
    {
      assert SameAt(a, b, p);
    }
  }

  lemma DownloadedAt(cfg: Config, s: State, t: nat, e: nat, content: Bytes, record: Option<Bytes>, p: string)
    requires Wf(s) && NoLinks(s) && e < |s.entries|
    requires p != TmpOf(cfg, s.entries[e]) && s.entries[e].location != TmpOf(cfg, s.entries[e])
    ensures SameAt(Files(Downloaded(cfg, s, t, e, content, record)), Files(s)[s.entries[e].location := content], p)
  {
  }
}
