/** `get_driver_location` and `_download_driver` (be/runtime/jdbc_driver_manager.cpp:134-183), run by
    any number of threads. A step is a critical section of the manager's lock, a download-lock
    operation, a single store to an entry flag, or a single file operation of a download.

    Files are inodes behind directory entries, because a rename moves an open file and a second
    `fopen(..., "w")` of a shared temporary path truncates it under its first writer. */
module DriverProtocol {
  import opened Wrappers
  import opened DriverCodec
  import Download = DownloadUtil
  import opened Decimal
  import Md5

  /** `honour`: an error status of the download is returned to the caller (as written it is dropped).
      `reap`: a condemned entry's destructor removes its file (as written that is a to-do).
      `loaded`: the contents of the jars found at start-up, one for each initial entry. */
  datatype Config = Config(
    dir: string, md5: Bytes -> Md5.Digest, honour: bool, reap: bool, loaded: seq<Bytes>)

  /** `owner` is the thread holding `download_lock`. Three history variables: `completed` records that
      the file was put in place, by a download or before start-up; `cut` what a close that fell short
      has left of it; `destroyed` that the last reference is gone. */
  datatype Entry = Entry(
    name: string, checksum: string, ts: int, location: string,
    available: bool, condemned: bool, downloaded: bool,
    owner: Option<nat>, completed: bool, cut: Option<Bytes>, destroyed: bool)

  /** Where a thread inside `get_driver_location` stands, and the entry it references. `sent` is what
      the digest has absorbed, `flushed` how much of it the stream has passed on to the file. */
  datatype Pc =
    | Waiting(e: nat)
    | Locked(e: nat)
    | Writing(e: nat, ino: nat, sent: Bytes, flushed: nat)
    | Closing(e: nat, ino: nat, sent: Bytes, flushed: nat, ok: bool)
    | Fetched(e: nat, ok: bool)
    | Flagged(e: nat)
    | Published(e: nat)

  datatype Answer = Answer(name: string, checksum: string, e: nat, location: string)

  datatype State = State(
    entries: seq<Entry>,
    emap: map<string, nat>,
    dir: map<string, nat>,
    inodes: seq<Bytes>,
    threads: map<nat, Pc>,
    answers: seq<Answer>)

  datatype Action =
    | Lookup(t: nat, name: string, checksum: string, now: Int64)
    | Acquire(t: nat)
    | Open(t: nat, ok: bool)
    | Deliver(t: nat, data: Bytes)
    | Flush(t: nat, upto: nat)
    | Fault(t: nat)
    | Finish(t: nat, renameOk: bool)
    | Close(t: nat, upto: nat)
    | StoreDownloaded(t: nat)
    | StoreAvailable(t: nat)
    | Leave(t: nat)
    | Reap(e: nat)

  // ----- One step

  predicate HoldsLock(pc: Pc) {
    !pc.Waiting?
  }

  predicate HasStream(pc: Pc) {
    pc.Writing? || pc.Closing?
  }

  function TmpOf(cfg: Config, entry: Entry): string {
    TmpPath(cfg.dir, entry.name, entry.checksum)
  }

  /** Indices are in range. */
  predicate Wf(s: State) {
    && (forall n | n in s.emap :: s.emap[n] < |s.entries|)
    && (forall p | p in s.dir :: s.dir[p] < |s.inodes|)
    && (forall t | t in s.threads :: s.threads[t].e < |s.entries|)
    && (forall t | t in s.threads && HasStream(s.threads[t]) ::
          s.threads[t].ino < |s.inodes| && s.threads[t].flushed <= |s.threads[t].sent|)
  }

  predicate At(s: State, t: nat) {
    t in s.threads
  }

  /** Someone else had finished the download; this one failed and says so; or it is published. */
  predicate MayLeave(cfg: Config, s: State, pc: Pc)
    requires pc.e < |s.entries|
  {
    match pc
    case Locked(e) => s.entries[e].downloaded
    case Fetched(_, ok) => !ok && cfg.honour
    case Published(_) => true
    case _ => false
  }

  predicate Enabled(cfg: Config, s: State, a: Action) {
    && Wf(s)
    && match a
       case Lookup(t, _, _, _) => !At(s, t)
       case Acquire(t) =>
         At(s, t) && s.threads[t].Waiting? && s.entries[s.threads[t].e].owner.None?
       case Open(t, _) => At(s, t) && s.threads[t].Locked? && !s.entries[s.threads[t].e].downloaded
       case Deliver(t, _) => At(s, t) && s.threads[t].Writing?
       case Flush(t, upto) =>
         At(s, t) && HasStream(s.threads[t]) && s.threads[t].flushed <= upto <= |s.threads[t].sent|
       case Fault(t) => At(s, t) && s.threads[t].Writing?
       case Finish(t, _) => At(s, t) && s.threads[t].Writing?
       case Close(t, upto) =>
         At(s, t) && s.threads[t].Closing? && s.threads[t].flushed <= upto <= |s.threads[t].sent|
       case StoreDownloaded(t) =>
         At(s, t) && s.threads[t].Fetched? && (s.threads[t].ok || !cfg.honour)
       case StoreAvailable(t) => At(s, t) && s.threads[t].Flagged?
       case Leave(t) =>
         At(s, t) && MayLeave(cfg, s, s.threads[t])
       case Reap(e) =>
         && e < |s.entries| && s.entries[e].condemned && !s.entries[e].destroyed
         && e !in s.emap.Values && forall t | t in s.threads :: s.threads[t].e != e
  }

  function NewEntry(cfg: Config, name: string, checksum: string, now: int): Entry {
    Entry(name, checksum, now, Location(cfg.dir, Jar(name, checksum, now)),
          false, false, false, None, false, None, false)
  }

  function Create(cfg: Config, s: State, t: nat, name: string, checksum: string, now: int): State {
    s.(entries := s.entries + [NewEntry(cfg, name, checksum, now)],
       emap := s.emap[name := |s.entries|],
       threads := s.threads[t := Waiting(|s.entries|)])
  }

  function Condemn(s: State, e: nat): State
    requires e < |s.entries|
  {
    s.(entries := s.entries[e := s.entries[e].(condemned := true)])
  }

  function Answering(s: State, e: nat): State
    requires e < |s.entries|
  {
    var entry := s.entries[e];
    s.(answers := s.answers + [Answer(entry.name, entry.checksum, e, entry.location)])
  }

  /** Lines 138-164, under the manager's lock. */
  function DoLookup(cfg: Config, s: State, t: nat, name: string, checksum: string, now: int): State
    requires Wf(s)
  {
    if name !in s.emap then Create(cfg, s, t, name, checksum, now)
    else
      var e := s.emap[name];
      if s.entries[e].name == name && s.entries[e].checksum == checksum then
        if s.entries[e].available then Answering(s, e)
        else s.(threads := s.threads[t := Waiting(e)])
      else Create(cfg, Condemn(s, e), t, name, checksum, now)
  }

  function SetPc(s: State, t: nat, pc: Pc): State {
    s.(threads := s.threads[t := pc])
  }

  function SetEntry(s: State, e: nat, entry: Entry): State
    requires e < |s.entries|
  {
    s.(entries := s.entries[e := entry])
  }

  /** `fopen(path, "w")`: truncate the file behind the path, or create one. */
  function DoOpen(cfg: Config, s: State, t: nat, ok: bool): State
    requires Wf(s) && At(s, t)
  {
    var e := s.threads[t].e;
    var path := TmpOf(cfg, s.entries[e]);
    if !ok then SetPc(s, t, Fetched(e, false))
    else if path in s.dir then
      SetPc(s.(inodes := s.inodes[s.dir[path] := []]), t, Writing(e, s.dir[path], [], 0))
    else
      SetPc(s.(inodes := s.inodes + [[]], dir := s.dir[path := |s.inodes|]),
            t, Writing(e, |s.inodes|, [], 0))
  }

  function Zeros(n: nat): Bytes {
    seq(n, _ => 0)
  }

  /** Writing `data` at offset `off` of `file`; a gap reads as zeros. Nothing to write writes nothing. */
  function WriteAt(file: Bytes, off: nat, data: Bytes): Bytes {
    if data == [] then file else
    (if |file| < off then file + Zeros(off - |file|) else file[..off])
    + data
    + (if |file| > off + |data| then file[off + |data|..] else [])
  }

  /** What that means byte by byte: the data in its window, the file around it, zeros in a gap. */
  lemma WriteAtBytes(file: Bytes, off: nat, data: Bytes)
    ensures data == [] ==> WriteAt(file, off, data) == file
    ensures data != [] ==>
      |WriteAt(file, off, data)| == if |file| > off + |data| then |file| else off + |data|
    ensures forall k | 0 <= k < |WriteAt(file, off, data)| ::
      WriteAt(file, off, data)[k] ==
      if off <= k < off + |data| then data[k - off] else if k < |file| then file[k] else 0
  {
  }

  function Pushed(file: Bytes, pc: Pc, upto: nat): Bytes
    requires HasStream(pc) && pc.flushed <= upto <= |pc.sent|
  {
    WriteAt(file, pc.flushed, pc.sent[pc.flushed..upto])
  }

  function DoFlush(s: State, t: nat, upto: nat): State
    requires Wf(s) && At(s, t) && HasStream(s.threads[t])
    requires s.threads[t].flushed <= upto <= |s.threads[t].sent|
  {
    var pc := s.threads[t];
    SetPc(s.(inodes := s.inodes[pc.ino := Pushed(s.inodes[pc.ino], pc, upto)]),
          t, pc.(flushed := upto))
  }

  /** The stream as the deferred close finds it. */
  function ToClose(pc: Pc, ok: bool): Pc
    requires pc.Writing?
  {
    Closing(pc.e, pc.ino, pc.sent, pc.flushed, ok)
  }

  /** Digest, comparison and rename; the rename moves whatever file the temporary path names now. */
  function DoFinish(cfg: Config, s: State, t: nat, renameOk: bool): State
    requires Wf(s) && At(s, t) && s.threads[t].Writing?
  {
    var pc := s.threads[t];
    var entry := s.entries[pc.e];
    var tmp := TmpOf(cfg, entry);
    if Download.Matches(cfg.md5, pc.sent, entry.checksum) && renameOk && tmp in s.dir then
      SetPc(SetEntry(s.(dir := (s.dir - {tmp})[entry.location := s.dir[tmp]]),
                     pc.e, entry.(completed := true)),
            t, ToClose(pc, true))
    else SetPc(s, t, ToClose(pc, false))
  }

  /** The deferred `fclose`: its final flush may get only part of the data down, unnoticed. */
  function DoClose(s: State, t: nat, upto: nat): State
    requires Wf(s) && At(s, t) && s.threads[t].Closing?
    requires s.threads[t].flushed <= upto <= |s.threads[t].sent|
  {
    var pc := s.threads[t];
    SetPc(SetEntry(s.(inodes := s.inodes[pc.ino := Pushed(s.inodes[pc.ino], pc, upto)]),
                   pc.e, AfterClose(s.entries[pc.e], pc, upto)),
          t, Fetched(pc.e, pc.ok))
  }

  /** Of a renamed stream closed short, the bytes that were got down are on record. */
  function AfterClose(entry: Entry, pc: Pc, upto: nat): Entry
    requires pc.Closing? && upto <= |pc.sent|
  {
    if pc.ok && upto < |pc.sent| then entry.(cut := Some(pc.sent[..upto])) else entry
  }

  /** Unlock and return, with the location unless an error status is returned. */
  function DoLeave(s: State, t: nat): State
    requires Wf(s) && At(s, t)
  {
    var e := s.threads[t].e;
    var s' := SetEntry(s, e, s.entries[e].(owner := None)).(threads := s.threads - {t});
    if s.threads[t].Fetched? then s' else Answering(s', e)
  }

  /** The destructor of an entry nothing references any more. */
  function DoReap(cfg: Config, s: State, e: nat): State
    requires e < |s.entries|
  {
    var s' := SetEntry(s, e, s.entries[e].(destroyed := true));
    if cfg.reap then s'.(dir := s.dir - {s.entries[e].location}) else s'
  }

  function Apply(cfg: Config, s: State, a: Action): State
    requires Enabled(cfg, s, a)
  {
    match a
    case Lookup(t, name, checksum, now) => DoLookup(cfg, s, t, name, checksum, now)
    case Acquire(t) =>
      var e := s.threads[t].e;
      SetPc(SetEntry(s, e, s.entries[e].(owner := Some(t))), t, Locked(e))
    case Open(t, ok) => DoOpen(cfg, s, t, ok)
    case Deliver(t, data) =>
      var pc := s.threads[t];
      SetPc(s, t, if data == [] then ToClose(pc, false)
                  else Writing(pc.e, pc.ino, pc.sent + data, pc.flushed))
    case Flush(t, upto) => DoFlush(s, t, upto)
    case Fault(t) => SetPc(s, t, ToClose(s.threads[t], false))
    case Finish(t, renameOk) => DoFinish(cfg, s, t, renameOk)
    case Close(t, upto) => DoClose(s, t, upto)
    case StoreDownloaded(t) =>
      var e := s.threads[t].e;
      SetPc(SetEntry(s, e, s.entries[e].(downloaded := true)), t, Flagged(e))
    case StoreAvailable(t) =>
      var e := s.threads[t].e;
      SetPc(SetEntry(s, e, s.entries[e].(available := true)), t, Published(e))
    case Leave(t) => DoLeave(s, t)
    case Reap(e) => DoReap(cfg, s, e)
  }

  // ----- Runs

  /** What the safety results ask of the environment, all of it visible before the step: an entry is
      created only at a location no other entry may still write or destroy; a temporary path is opened
      only while nobody else streams into it. */
  predicate Disciplined(cfg: Config, s: State, a: Action)
    requires Enabled(cfg, s, a)
  {
    match a
    case Lookup(_, name, checksum, now) => Creates(s, name, checksum) ==> LocationFree(cfg, s, name, checksum, now)
    case Open(t, ok) => ok ==> TmpUnused(cfg, s, TmpOf(cfg, s.entries[s.threads[t].e]))
    case _ => true
  }

  predicate Creates(s: State, name: string, checksum: string)
    requires Wf(s)
  {
    name !in s.emap || s.entries[s.emap[name]].name != name || s.entries[s.emap[name]].checksum != checksum
  }

  /** The thread is inside a call for the entry and has not opened a stream yet. */
  predicate Queues(s: State, t: nat, e: nat) {
    t in s.threads && (s.threads[t].Waiting? || s.threads[t].Locked?) && s.threads[t].e == e
  }

  /** What entry `e` may still do to its location once its name is mapped to another: with removal, its
      destruction takes the file away; without, a thread that has yet to open its stream may rename
      another file there. */
  predicate Contends(cfg: Config, s: State, e: nat)
    requires e < |s.entries|
  {
    if cfg.reap then !s.entries[e].destroyed
    else !s.entries[e].condemned || (!s.entries[e].completed && exists t | t in s.threads :: Queues(s, t, e))
  }

  predicate LocationFree(cfg: Config, s: State, name: string, checksum: string, now: int) {
    forall e: nat | e < |s.entries| && Contends(cfg, s, e) ::
      s.entries[e].location != Location(cfg.dir, Jar(name, checksum, now))
  }

  /** The entry's location may hold its file: only destruction with removal gives it up. */
  predicate Occupies(cfg: Config, entry: Entry) {
    !entry.destroyed || !cfg.reap
  }

  /** An entry is created only at a location no other entry may have its file at. */
  predicate CreatesApart(cfg: Config, s: State, a: Action)
    requires Wf(s)
  {
    a.Lookup? && Creates(s, a.name, a.checksum) ==>
      forall e | 0 <= e < |s.entries| && Occupies(cfg, s.entries[e]) ::
        s.entries[e].location != Location(cfg.dir, Jar(a.name, a.checksum, a.now))
  }

  /** Drivers asked for under checksums without an underscore, which file names can be told from. */
  predicate PlainRequest(s: State, a: Action)
    requires Wf(s)
  {
    a.Lookup? && Creates(s, a.name, a.checksum) ==> !HasUnderscore(a.checksum)
  }

  /** A stream that may still write behind a temporary path: not renamed away, and not given up with
      nothing left to flush. */
  predicate OnTmp(pc: Pc) {
    pc.Writing? || (pc.Closing? && !pc.ok && pc.flushed < |pc.sent|)
  }

  predicate TmpUnused(cfg: Config, s: State, path: string) {
    forall t | t in s.threads && OnTmp(s.threads[t]) && s.threads[t].e < |s.entries| ::
      TmpOf(cfg, s.entries[s.threads[t].e]) != path
  }

  /** `ss` are the states the actions `acts` lead through. */
  ghost predicate Run(cfg: Config, ss: seq<State>, acts: seq<Action>) {
    && |ss| == |acts| + 1
    && (forall i {:trigger acts[i]} | 0 <= i < |acts| ::
          Enabled(cfg, ss[i], acts[i]) && ss[i + 1] == Apply(cfg, ss[i], acts[i]))
  }

  ghost predicate DisciplinedRun(cfg: Config, ss: seq<State>, acts: seq<Action>) {
    && Run(cfg, ss, acts)
    && (forall i {:trigger acts[i]} | 0 <= i < |acts| :: Disciplined(cfg, ss[i], acts[i]))
  }

  /** A run whose entries are created apart, whatever else happens in it. */
  ghost predicate ApartRun(cfg: Config, ss: seq<State>, acts: seq<Action>) {
    && Run(cfg, ss, acts)
    && (forall i {:trigger acts[i]} | 0 <= i < |acts| :: CreatesApart(cfg, ss[i], acts[i]))
  }

  /** A run whose requests are plain, disciplined or not. */
  ghost predicate PlainRun(cfg: Config, ss: seq<State>, acts: seq<Action>) {
    && Run(cfg, ss, acts)
    && (forall i {:trigger acts[i]} | 0 <= i < |acts| :: PlainRequest(ss[i], acts[i]))
  }
}
