/** The step system refines the sequential manager: a thread that has the manager to itself takes it
    through some run to exactly what the sequential call does, for every behaviour of the transfer. */
module DriverRefinement {
  import opened Wrappers
  import opened DriverCodec
  import opened DriverScan
  import opened DriverCalls
  import opened DriverProtocol
  import opened DriverInvariants
  import opened DriverSafety
  import opened DriverSolo
  import Download = DownloadUtil

  // ----- The download

  lemma StreamFails(cfg: Config, s0: Origin, s: State, t: nat, e: nat, tr: Download.Transfer, i: nat) returns (f: State)
    requires s0.Freely? && Reaches(cfg, s0, s) && Wf(s)
    requires At(s, t) && s.threads[t] == Locked(e) && !s.entries[e].downloaded
    requires i < |tr.chunks| && forall j | 0 <= j < i :: tr.chunks[j] != []
    ensures Reaches(cfg, s0, f) && Wf(f)
    ensures f == WithTmp(cfg, s, t, e, Download.Concat(tr.chunks[..i]), Fetched(e, false))
  {
    var sent := Download.Concat(tr.chunks[..i]);
    var pc := Writing(e, TmpIno(cfg, s, e), sent, 0);
    Opens(cfg, s0, s, t, e);
    StreamsTo(cfg, s0, s, t, e, tr.chunks[..i]);
    ByWriteFailure(cfg, s0, WithTmp(cfg, s, t, e, [], pc), t, tr.chunks[i]);
    SetPcAfter(cfg, s, t, e, pc, ToClose(pc, false));
    FailedClose(cfg, s0, s, t, e, sent);
    f := WithTmp(cfg, s, t, e, sent, Fetched(e, false));
  }

  lemma FinishFails(cfg: Config, s0: Origin, s: State, t: nat, e: nat, tr: Download.Transfer) returns (f: State)
    requires s0.Freely? && Reaches(cfg, s0, s) && Wf(s)
    requires At(s, t) && s.threads[t] == Locked(e) && !s.entries[e].downloaded
    requires forall j | 0 <= j < |tr.chunks| :: tr.chunks[j] != []
    requires !Download.Matches(cfg.md5, Download.Concat(tr.chunks), s.entries[e].checksum) || !tr.renameOk
    ensures Reaches(cfg, s0, f) && Wf(f)
    ensures f == WithTmp(cfg, s, t, e, Download.Concat(tr.chunks), Fetched(e, false))
  {
    var sent := Download.Concat(tr.chunks);
    var pc := Writing(e, TmpIno(cfg, s, e), sent, 0);
    Opens(cfg, s0, s, t, e);
    StreamsTo(cfg, s0, s, t, e, tr.chunks);
    ByFinish(cfg, s0, WithTmp(cfg, s, t, e, [], pc), t, tr.renameOk);
    SetPcAfter(cfg, s, t, e, pc, ToClose(pc, false));
    FailedClose(cfg, s0, s, t, e, sent);
    f := WithTmp(cfg, s, t, e, sent, Fetched(e, false));
  }

  /** A failed download changes nothing but the temporary file. */
  ghost predicate OnlyTmpChanged(cfg: Config, s: State, f: State, t: nat, e: nat)
    requires e < |s.entries|
  {
    && f.entries == s.entries && f.emap == s.emap && f.answers == s.answers
    && f.threads == s.threads[t := Fetched(e, false)]
    && Files(f) - {TmpOf(cfg, s.entries[e])} == Files(s) - {TmpOf(cfg, s.entries[e])}
  }

  lemma FetchFails(cfg: Config, s0: Origin, s: State, t: nat, e: nat, tr: Download.Transfer) returns (f: State)
    requires s0.Freely? && Reaches(cfg, s0, s) && Wf(s) && NoLinks(s) && At(s, t) && s.threads[t] == Locked(e)
    requires !s.entries[e].downloaded && !Download.Succeeds(cfg.md5, s.entries[e].checksum, tr)
    ensures Reaches(cfg, s0, f) && Wf(f) && OnlyTmpChanged(cfg, s, f, t, e)
  {
    if !tr.openOk {
      ByOpen(cfg, s0, s, t, e, false);
      f := DoOpen(cfg, s, t, false);
    } else if !tr.AllWritten() {
      var i := FirstFailure(tr, 0);
      f := StreamFails(cfg, s0, s, t, e, tr, i);
      FilesWithTmp(cfg, s, t, e, Download.Concat(tr.chunks[..i]), Fetched(e, false));
    } else {
      forall j | 0 <= j < |tr.chunks|
        ensures tr.chunks[j] != []
      {
        assert !tr.WriteFails(j);
      }
      f := FinishFails(cfg, s0, s, t, e, tr);
      FilesWithTmp(cfg, s, t, e, Download.Concat(tr.chunks), Fetched(e, false));
    }
  }

  lemma FirstFailure(tr: Download.Transfer, from: nat) returns (i: nat)
    requires from <= |tr.chunks| && !tr.AllWritten()
    requires forall j | 0 <= j < from :: tr.chunks[j] != [] && !tr.WriteFails(j)
    ensures i < |tr.chunks| && forall j | 0 <= j < i :: tr.chunks[j] != []
    decreases |tr.chunks| - from
  {
    i := from;
    if !tr.WriteFails(from) {
      i := FirstFailure(tr, from + 1);
    }
  }

  // ----- The lookup and the return

  /** A manager no thread is inside of. */
  ghost predicate Quiescent(cfg: Config, s: State) {
    Inv(cfg, s) && s.threads == map[]
  }

  lemma QuiescentIsSettled(cfg: Config, s: State, e: nat)
    requires Quiescent(cfg, s) && e < |s.entries|
    ensures s.entries[e].owner == None && Settled(cfg, s.entries[e])
  {
    assert OwnerOk(cfg, s, e);
  }

  /** `s1` differs from `s` in the map only by filing entry `e` under `name`. */
  ghost predicate FilesUnder(s: State, s1: State, name: string, e: nat) {
    && e < |s1.entries| && |s.entries| <= |s1.entries| && s1.emap == s.emap[name := e]
    && (forall n | n in s.emap && n != name && s.emap[n] < |s.entries| :: s1.entries[s.emap[n]] == s.entries[s.emap[n]])
  }

  lemma WorldFollows(s: State, s1: State, name: string, e: nat)
    requires Wf(s) && FilesUnder(s, s1, name, e)
    ensures WorldOf(s1).live == WorldOf(s).live[name := ViewOf(s1.entries[e])]
  {
    forall n | n in s.emap && n != name
      ensures ViewOf(s1.entries[s.emap[n]]) == ViewOf(s.entries[s.emap[n]])
    {
    }
  }

  /** The lookup of a name that is unmapped, or mapped under another checksum. */
  lemma CreatedWorld(cfg: Config, s: State, t: nat, req: Request)
    requires Quiescent(cfg, s) && Creates(s, req.name, req.checksum)
    ensures var s1, e := DoLookup(cfg, s, t, req.name, req.checksum, req.now), |s.entries|;
      && FilesUnder(s, s1, req.name, e) && ViewOf(s1.entries[e]) == Created(cfg.dir, req)
      && s1.entries[e].owner == None
      && s1.dir == s.dir && s1.inodes == s.inodes
      && s1.threads == map[t := Waiting(e)] && s1.answers == s.answers
  {
    if req.name in s.emap {
      CreateFiles(cfg, s, Condemn(s, s.emap[req.name]), t, req);
    } else {
      CreateFiles(cfg, s, s, t, req);
    }
  }

  lemma CreateFiles(cfg: Config, s: State, c: State, t: nat, req: Request)
    requires Wf(s) && s.threads == map[] && |c.entries| == |s.entries| && c == s.(entries := c.entries)
    requires forall n | n in s.emap && n != req.name :: c.entries[s.emap[n]] == s.entries[s.emap[n]]
    ensures var s1, e := Create(cfg, c, t, req.name, req.checksum, req.now), |s.entries|;
      && FilesUnder(s, s1, req.name, e) && ViewOf(s1.entries[e]) == Created(cfg.dir, req)
      && s1.entries[e].owner == None
      && s1.dir == s.dir && s1.inodes == s.inodes
      && s1.threads == map[t := Waiting(e)] && s1.answers == s.answers
  {
  }

  lemma SettlesOn(cfg: Config, s: State, req: Request)
    requires Quiescent(cfg, s)
    ensures Settle(cfg.dir, WorldOf(s).live, req)
         == if Creates(s, req.name, req.checksum) then Created(cfg.dir, req) else ViewOf(s.entries[s.emap[req.name]])
  {
  }

  /** The lookup of a name mapped under the requested checksum. */
  lemma ExpectedWorld(cfg: Config, s: State, t: nat, req: Request)
    requires Quiescent(cfg, s) && !Creates(s, req.name, req.checksum)
    ensures var s1, e := DoLookup(cfg, s, t, req.name, req.checksum, req.now), s.emap[req.name];
      && FilesUnder(s, s1, req.name, e) && s1.entries == s.entries && s.entries[e].owner == None
      && s.entries[e].downloaded == s.entries[e].available
      && s1.dir == s.dir && s1.inodes == s.inodes
      && (if s.entries[e].available
          then s1.threads == map[] && s1.answers
            == s.answers + [Answer(s.entries[e].name, s.entries[e].checksum, e, s.entries[e].location)]
          else s1.threads == map[t := Waiting(e)] && s1.answers == s.answers)
  {
    var e := s.emap[req.name];
    QuiescentIsSettled(cfg, s, e);
    assert s.emap[req.name := e] == s.emap;
  }

  /** The entry a waiting lookup has settled on. */
  ghost predicate Awaits(cfg: Config, s: State, s1: State, t: nat, req: Request, e: nat) {
    && Wf(s1) && FilesUnder(s, s1, req.name, e)
    && ViewOf(s1.entries[e]) == Settle(cfg.dir, WorldOf(s).live, req)
    && s1.entries[e].owner == None && !s1.entries[e].downloaded
    && s1.dir == s.dir && s1.inodes == s.inodes
    && s1.threads == map[t := Waiting(e)] && s1.answers == s.answers
  }

  /** The lookup, when it does not answer at once. */
  lemma LookupAwaits(cfg: Config, s: State, t: nat, req: Request) returns (e: nat)
    requires Quiescent(cfg, s) && !Settle(cfg.dir, WorldOf(s).live, req).available
    ensures Awaits(cfg, s, DoLookup(cfg, s, t, req.name, req.checksum, req.now), t, req, e)
  {
    KeepsWf(cfg, s, Lookup(t, req.name, req.checksum, req.now));
    SettlesOn(cfg, s, req);
    if Creates(s, req.name, req.checksum) {
      CreatedWorld(cfg, s, t, req);
      e := |s.entries|;
    } else {
      ExpectedWorld(cfg, s, t, req);
      e := s.emap[req.name];
    }
  }

  /** The state once the thread holds the download lock. */
  lemma LocksEntry(cfg: Config, s: State, s1: State, t: nat, e: nat) returns (s2: State)
    requires Reaches(cfg, Freely(s), s1) && Wf(s1) && NoLinks(s1) && At(s1, t) && s1.threads[t] == Waiting(e)
    requires s1.entries[e].owner == None
    ensures Reaches(cfg, Freely(s), s2) && Wf(s2) && NoLinks(s2) && Files(s2) == Files(s1)
    ensures s2 == SetPc(SetEntry(s1, e, s1.entries[e].(owner := Some(t))), t, Locked(e))
    ensures s1.threads == map[t := Waiting(e)] && !s1.entries[e].downloaded ==> HoldsEntry(s1, s2, t, e)
  {
    ByAcquire(cfg, Freely(s), s1, t, e);
    s2 := SetPc(SetEntry(s1, e, s1.entries[e].(owner := Some(t))), t, Locked(e));
  }

  /** What the call leaves behind, given how its lookup and its download went. */
  ghost predicate Returned(s1: State, s': State, e: nat, view: EntryView, answered: bool)
    requires e < |s1.entries|
  {
    && s'.emap == s1.emap && |s'.entries| == |s1.entries| && s'.threads == map[]
    && (forall i | 0 <= i < |s1.entries| && i != e :: s'.entries[i] == s1.entries[i])
    && ViewOf(s'.entries[e]) == view
    && s'.answers == s1.answers
      + (if answered then [Answer(view.jar.name, view.jar.checksum, e, view.location)] else [])
  }

  lemma Leaves(cfg: Config, s0: Origin, s1: State, f: State, t: nat, e: nat) returns (s': State)
    requires Reaches(cfg, s0, f) && Wf(f) && At(f, t) && MayLeave(cfg, f, f.threads[t]) && f.threads[t].e == e
    requires e < |s1.entries| == |f.entries| && f.emap == s1.emap && f.answers == s1.answers
    requires f.threads.Keys == {t} && forall i | 0 <= i < |s1.entries| && i != e :: f.entries[i] == s1.entries[i]
    ensures Reaches(cfg, s0, s') && Wf(s') && Files(s') == Files(f)
    ensures Returned(s1, s', e, ViewOf(f.entries[e]), !f.threads[t].Fetched?)
  {
    ByLeave(cfg, s0, f, t);
    s' := DoLeave(f, t);
    assert f.threads - {t} == map[];
  }

  // ----- The whole call

  /** Filing, locking, downloading and returning come out as one update of the map. */
  lemma ReturnedWorld(cfg: Config, s: State, s1: State, s': State, t: nat, req: Request, e: nat,
                      view: EntryView, answered: bool)
    requires Quiescent(cfg, s) && Awaits(cfg, s, s1, t, req, e) && Wf(s')
    requires Returned(s1, s', e, view, answered)
    ensures WorldOf(s').live == WorldOf(s).live[req.name := view]
  {
    assert s1.entries[e].name == req.name;
    forall n | n in s.emap && n != req.name
      ensures s.emap[n] != e && s'.entries[s.emap[n]] == s.entries[s.emap[n]]
    {
      assert s1.entries[s.emap[n]].name == n;
    }
    WorldFollows(s, s', req.name, e);
  }

  /** The acting entry's location is not its temporary path. */
  lemma SettledApart(cfg: Config, s: State, s1: State, t: nat, req: Request, e: nat)
    requires Quiescent(cfg, s) && Awaits(cfg, s, s1, t, req, e)
    ensures s1.entries[e].location != TmpOf(cfg, s1.entries[e])
    ensures TmpOf(cfg, s1.entries[e]) == TmpPath(cfg.dir, req.name, req.checksum)
    ensures s1.entries[e].checksum == req.checksum && s1.entries[e].name == req.name
  {
    SettlesOn(cfg, s, req);
    if Creates(s, req.name, req.checksum) {
      LocationIsNotTmp(cfg.dir, Jar(req.name, req.checksum, req.now), req.name, req.checksum);
    } else {
      TmpApart(cfg, s, s.emap[req.name], s1.entries[e]);
    }
  }

  /** The lookup, when it answers at once, is the whole call. */
  lemma HitIsCall(cfg: Config, s: State, t: nat, req: Request, tr: Download.Transfer) returns (location: string)
    requires Quiescent(cfg, s) && Settle(cfg.dir, WorldOf(s).live, req).available
    ensures var s' := DoLookup(cfg, s, t, req.name, req.checksum, req.now);
      && s'.threads == map[] && req.name in s'.emap
      && Call(cfg.dir, cfg.md5, cfg.honour, WorldOf(s), req, tr, WorldOf(s'), Ok, location)
      && s'.answers == s.answers + [Answer(req.name, req.checksum, s'.emap[req.name], location)]
  {
    SettlesOn(cfg, s, req);
    ExpectedWorld(cfg, s, t, req);
    var s' := DoLookup(cfg, s, t, req.name, req.checksum, req.now);
    location := s.entries[s.emap[req.name]].location;
    WorldFollows(s, s', req.name, s.emap[req.name]);
  }

  /** The download of a waiting thread, run to the end of the call. */
  lemma SoloFetch(cfg: Config, s: State, s1: State, t: nat, req: Request, tr: Download.Transfer, e: nat)
    returns (s': State, status: Status)
    requires Quiescent(cfg, s) && Reaches(cfg, Freely(s), s1) && Awaits(cfg, s, s1, t, req, e)
    ensures Reaches(cfg, Freely(s), s') && Wf(s')
    ensures status.Ok? <==> Download.Succeeds(cfg.md5, req.checksum, tr) || !cfg.honour
    ensures var view := ViewOf(s1.entries[e]);
      Returned(s1, s', e, if status.Ok? then AsPublished(view) else view, status.Ok?)
    ensures var tmp := TmpPath(cfg.dir, req.name, req.checksum);
      Files(s') - {tmp} == (if Download.Succeeds(cfg.md5, req.checksum, tr)
        then Files(s)[s1.entries[e].location := tr.OnDisk(Download.Concat(tr.chunks))] else Files(s)) - {tmp}
  {
    SettledApart(cfg, s, s1, t, req, e);
    assert NoLinks(s1) && Files(s1) == Files(s);
    var s2 := LocksEntry(cfg, s, s1, t, e);
    if Download.Succeeds(cfg.md5, req.checksum, tr) {
      status := Ok;
      s' := FetchesWell(cfg, s, s1, s2, t, e, tr);
    } else {
      status := if cfg.honour then InternalError else Ok;
      s' := FetchesBadly(cfg, s, s1, s2, t, e, tr);
    }
  }

  /** `s2` is `s1` once the waiting thread holds the lock. */
  ghost predicate HoldsEntry(s1: State, s2: State, t: nat, e: nat) {
    && e < |s1.entries| == |s2.entries| && !s1.entries[e].downloaded
    && s2.entries[e] == s1.entries[e].(owner := Some(t))
    && (forall i | 0 <= i < |s1.entries| && i != e :: s2.entries[i] == s1.entries[i])
    && s2.threads == map[t := Locked(e)] && s2.emap == s1.emap && s2.answers == s1.answers
  }

  lemma FetchesWell(cfg: Config, s: State, s1: State, s2: State, t: nat, e: nat, tr: Download.Transfer)
    returns (s': State)
    requires Reaches(cfg, Freely(s), s2) && Wf(s2) && NoLinks(s2) && HoldsEntry(s1, s2, t, e)
    requires Download.Succeeds(cfg.md5, s1.entries[e].checksum, tr)
    requires s1.entries[e].location != TmpOf(cfg, s1.entries[e])
    ensures Reaches(cfg, Freely(s), s') && Wf(s')
    ensures Returned(s1, s', e, AsPublished(ViewOf(s1.entries[e])), true)
    ensures var tmp := TmpOf(cfg, s1.entries[e]);
      Files(s') - {tmp} == Files(s2)[s1.entries[e].location := tr.OnDisk(Download.Concat(tr.chunks))] - {tmp}
  {
    forall j | 0 <= j < |tr.chunks|
      ensures tr.chunks[j] != []
    {
      assert !tr.WriteFails(j);
    }
    var data := Download.Concat(tr.chunks);
    var upto := if tr.flushed < |data| then tr.flushed else |data|;
    assert data[..upto] == tr.OnDisk(data);
    Opens(cfg, Freely(s), s2, t, e);
    Downloads(cfg, Freely(s), s2, t, e, tr.chunks, upto);
    var record := CutAt(s2.entries[e], data, upto);
    FilesDownloaded(cfg, s2, t, e, tr.OnDisk(data), record);
    s' := LeavesWell(cfg, s, s1, s2, t, e, tr.OnDisk(data), record);
  }

  lemma LeavesWell(cfg: Config, s: State, s1: State, s2: State, t: nat, e: nat, data: Bytes, record: Option<Bytes>)
    returns (s': State)
    requires Wf(s2) && HoldsEntry(s1, s2, t, e)
    requires var f := Downloaded(cfg, s2, t, e, data, record); Reaches(cfg, Freely(s), f) && Wf(f)
    ensures Reaches(cfg, Freely(s), s') && Wf(s') && Files(s') == Files(Downloaded(cfg, s2, t, e, data, record))
    ensures Returned(s1, s', e, AsPublished(ViewOf(s1.entries[e])), true)
  {
    var f := Downloaded(cfg, s2, t, e, data, record);
    assert f.threads.Keys == {t};
    s' := Leaves(cfg, Freely(s), s1, f, t, e);
  }

  lemma FetchesBadly(cfg: Config, s: State, s1: State, s2: State, t: nat, e: nat, tr: Download.Transfer)
    returns (s': State)
    requires Reaches(cfg, Freely(s), s2) && Wf(s2) && NoLinks(s2) && HoldsEntry(s1, s2, t, e)
    requires !Download.Succeeds(cfg.md5, s1.entries[e].checksum, tr)
    ensures Reaches(cfg, Freely(s), s') && Wf(s')
    ensures var view := ViewOf(s1.entries[e]);
      Returned(s1, s', e, if cfg.honour then view else AsPublished(view), !cfg.honour)
    ensures var tmp := TmpOf(cfg, s1.entries[e]); Files(s') - {tmp} == Files(s2) - {tmp}
  {
    var f := FetchFails(cfg, Freely(s), s2, t, e, tr);
    assert f.threads.Keys == {t};
    if cfg.honour {
      s' := Leaves(cfg, Freely(s), s1, f, t, e);
    } else {
      ByStores(cfg, Freely(s), f, t, e, false);
      var g := SetPc(SetEntry(f, e, f.entries[e].(downloaded := true, available := true)), t, Published(e));
      assert g.threads.Keys == {t};
      s' := Leaves(cfg, Freely(s), s1, g, t, e);
    }
  }

  /** Refinement. From any state between calls and for every behaviour of the transfer, some run of
      one thread ends between calls with the map, the directory (the temporary file aside), the status
      and the answer of the sequential call. */
  lemma SoloCall(cfg: Config, s: State, t: nat, req: Request, tr: Download.Transfer)
    returns (s': State, status: Status, location: string)
    requires Quiescent(cfg, s)
    ensures Reaches(cfg, Freely(s), s') && s'.threads == map[]
    ensures Call(cfg.dir, cfg.md5, cfg.honour, WorldOf(s), req, tr, WorldOf(s'), status, location)
    ensures |s'.answers| == |s.answers| + if status.Ok? then 1 else 0
    ensures status.Ok? ==> s'.answers[|s.answers|].location == location
  {
    Stay(cfg, Freely(s));
    ByLookup(cfg, Freely(s), s, t, req.name, req.checksum, req.now);
    var s1 := DoLookup(cfg, s, t, req.name, req.checksum, req.now);
    if Settle(cfg.dir, WorldOf(s).live, req).available {
      location := HitIsCall(cfg, s, t, req, tr);
      s', status := s1, Ok;
    } else {
      var e := LookupAwaits(cfg, s, t, req);
      s', status := SoloFetch(cfg, s, s1, t, req, tr, e);
      location := EndsCall(cfg, s, s1, s', t, req, e, tr, status);
    }
  }

  /** Filing, locking, downloading and returning put together. */
  lemma EndsCall(cfg: Config, s: State, s1: State, s': State, t: nat, req: Request, e: nat,
                 tr: Download.Transfer, status: Status) returns (location: string)
    requires Quiescent(cfg, s) && Awaits(cfg, s, s1, t, req, e) && Wf(s') && !s1.entries[e].available
    requires Returned(s1, s', e, EndView(s1, e, status), status.Ok?)
    requires status.Ok? <==> Download.Succeeds(cfg.md5, req.checksum, tr) || !cfg.honour
    requires var tmp := TmpPath(cfg.dir, req.name, req.checksum);
      Files(s') - {tmp} == (if Download.Succeeds(cfg.md5, req.checksum, tr)
        then Files(s)[s1.entries[e].location := tr.OnDisk(Download.Concat(tr.chunks))] else Files(s)) - {tmp}
    ensures Call(cfg.dir, cfg.md5, cfg.honour, WorldOf(s), req, tr, WorldOf(s'), status, location)
    ensures s'.answers == s.answers + if status.Ok? then [Answer(req.name, req.checksum, e, location)] else []
  {
    location := s1.entries[e].location;
    SettledApart(cfg, s, s1, t, req, e);
    EndsWorld(cfg, s, s1, s', t, req, e, tr, status);
  }

  lemma EndsWorld(cfg: Config, s: State, s1: State, s': State, t: nat, req: Request, e: nat,
                  tr: Download.Transfer, status: Status)
    requires Quiescent(cfg, s) && Awaits(cfg, s, s1, t, req, e) && Wf(s') && !s1.entries[e].available
    requires Returned(s1, s', e, EndView(s1, e, status), status.Ok?)
    requires status.Ok? <==> Download.Succeeds(cfg.md5, req.checksum, tr) || !cfg.honour
    requires var tmp := TmpPath(cfg.dir, req.name, req.checksum);
      Files(s') - {tmp} == (if Download.Succeeds(cfg.md5, req.checksum, tr)
        then Files(s)[s1.entries[e].location := tr.OnDisk(Download.Concat(tr.chunks))] else Files(s)) - {tmp}
    ensures Call(cfg.dir, cfg.md5, cfg.honour, WorldOf(s), req, tr, WorldOf(s'), status, s1.entries[e].location)
  {
    ReturnedWorld(cfg, s, s1, s', t, req, e, EndView(s1, e, status), status.Ok?);
    CallMade(cfg.dir, cfg.md5, cfg.honour, WorldOf(s), req, tr, WorldOf(s'), status, s1.entries[e].location);
  }

  /** How the entry is left. */
  function EndView(s1: State, e: nat, status: Status): EntryView
    requires e < |s1.entries|
  {
    if status.Ok? then AsPublished(ViewOf(s1.entries[e])) else ViewOf(s1.entries[e])
  }
}
