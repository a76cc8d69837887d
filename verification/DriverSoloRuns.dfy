/** The converse of the refinement: whatever steps a thread with the manager to itself takes through
    one call, the call it has made is a sequential one. */
module DriverSoloRuns {
  import opened Wrappers
  import opened DriverCodec
  import opened DriverScan
  import opened DriverCalls
  import opened DriverProtocol
  import opened DriverInvariants
  import opened DriverSafety
  import opened DriverSolo
  import opened DriverRefinement
  import Download = DownloadUtil

  // ----- Between the lookup and the return

  /** The files, the temporary one aside, are as before, or with verified bytes put in place, of which
      the first ones have reached the disk. */
  ghost predicate Done(cfg: Config, s1: State, r: State, e: nat, ok: bool)
    requires e < |s1.entries|
  {
    var tmp := TmpOf(cfg, s1.entries[e]);
    if ok then exists content, upto: nat :: Stored(cfg, s1, r, e, content, upto)
    else Files(r) - {tmp} == Files(s1) - {tmp}
  }

  ghost predicate Stored(cfg: Config, s1: State, r: State, e: nat, content: Bytes, upto: nat)
    requires e < |s1.entries|
  {
    var tmp := TmpOf(cfg, s1.entries[e]);
    && upto <= |content| && Download.Matches(cfg.md5, content, s1.entries[e].checksum)
    && Files(r) - {tmp} == Files(s1)[s1.entries[e].location := content[..upto]] - {tmp}
  }

  lemma SameFilesDone(cfg: Config, s1: State, r: State, r': State, e: nat, ok: bool)
    requires e < |s1.entries| && Done(cfg, s1, r, e, ok) && Files(r') == Files(r)
    ensures Done(cfg, s1, r', e, ok)
  {
    if ok {
      var content, upto: nat :| Stored(cfg, s1, r, e, content, upto);
      assert Stored(cfg, s1, r', e, content, upto);
    }
  }

  lemma Renamed(a: map<string, Bytes>, b: map<string, Bytes>, tmp: string, location: string, content: Bytes)
    requires a - {tmp} == b - {tmp} && location != tmp
    ensures (a - {tmp})[location := content] - {tmp} == b[location := content] - {tmp}
  {
    forall p | p in b && p != tmp
      ensures p in a && a[p] == b[p]
    {
      assert p in b - {tmp} && (b - {tmp})[p] == b[p];
    }
    forall p | p in a && p != tmp
      ensures p in b
    {
      assert p in a - {tmp};
    }
  }

  lemma Rewritten(a: map<string, Bytes>, b: map<string, Bytes>, tmp: string, location: string, x: Bytes, y: Bytes)
    requires a - {tmp} == b[location := x] - {tmp} && location != tmp
    ensures a[location := y] - {tmp} == b[location := y] - {tmp}
  {
    assert (a - {tmp})[location := y] == a[location := y] - {tmp};
    assert (b[location := x] - {tmp})[location := y] == b[location := y] - {tmp};
  }

  /** More of a renamed stream reaches its file. */
  lemma PouredIsStored(cfg: Config, s1: State, r: State, r': State, e: nat, pc: Pc, upto: nat)
    requires e < |s1.entries| && HasStream(pc) && pc.flushed <= |pc.sent| && upto <= |pc.sent|
    requires Stored(cfg, s1, r, e, pc.sent, pc.flushed) && s1.entries[e].location != TmpOf(cfg, s1.entries[e])
    requires Files(r') == Files(r)[s1.entries[e].location := pc.sent[..upto]]
    ensures Stored(cfg, s1, r', e, pc.sent, upto)
  {
    Rewritten(Files(r), Files(s1), TmpOf(cfg, s1.entries[e]), s1.entries[e].location,
              pc.sent[..pc.flushed], pc.sent[..upto]);
  }

  predicate FileAt(r: State, path: string, pc: Pc)
    requires HasStream(pc) && pc.flushed <= |pc.sent|
  {
    path in r.dir && r.dir[path] == pc.ino < |r.inodes| && r.inodes[pc.ino] == pc.sent[..pc.flushed]
  }

  /** What the thread has done to the directory when it stands at `pc`. */
  ghost predicate Stage(cfg: Config, s1: State, r: State, e: nat, pc: Pc)
    requires e < |s1.entries| && (HasStream(pc) ==> pc.flushed <= |pc.sent|)
  {
    var tmp, location := TmpOf(cfg, s1.entries[e]), s1.entries[e].location;
    match pc
    case Waiting(_) => Files(r) == Files(s1)
    case Locked(_) => Files(r) == Files(s1)
    case Writing(_, _, _, _) => FileAt(r, tmp, pc) && Done(cfg, s1, r, e, false)
    case Closing(_, _, sent, flushed, ok) =>
      if ok then FileAt(r, location, pc) && Stored(cfg, s1, r, e, sent, flushed)
      else FileAt(r, tmp, pc) && Done(cfg, s1, r, e, false)
    case Fetched(_, ok) => Done(cfg, s1, r, e, ok)
    case Flagged(_) => exists ok: bool :: MayPublish(cfg, s1, r, e, ok)
    case Published(_) => exists ok: bool :: MayPublish(cfg, s1, r, e, ok)
  }

  ghost predicate MayPublish(cfg: Config, s1: State, r: State, e: nat, ok: bool)
    requires e < |s1.entries|
  {
    (ok || !cfg.honour) && Done(cfg, s1, r, e, ok)
  }

  /** The entry as the thread's own stores have left it. */
  function Marked(view: EntryView, pc: Pc): EntryView {
    view.(downloaded := pc.Flagged? || pc.Published?, available := pc.Published?)
  }

  /** Only the thread's own entry differs from what the lookup left. */
  ghost predicate Aside(s1: State, r: State, t: nat, e: nat) {
    && e < |s1.entries| == |r.entries| && r.emap == s1.emap && r.answers == s1.answers
    && (forall i | 0 <= i < |s1.entries| && i != e :: r.entries[i] == s1.entries[i])
    && r.threads.Keys == {t} && r.threads[t].e == e
  }

  /** `r` lies on the thread's way from `s1`, the state its lookup left. */
  ghost predicate Midway(cfg: Config, s1: State, r: State, t: nat, e: nat) {
    && Wf(r) && NoLinks(r) && Aside(s1, r, t, e)
    && ViewOf(r.entries[e]) == Marked(ViewOf(s1.entries[e]), r.threads[t])
    && Stage(cfg, s1, r, e, r.threads[t])
  }

  /** What every step of the thread short of the last does to the entries. */
  lemma MovesAside(cfg: Config, s1: State, r: State, t: nat, e: nat, a: Action)
    requires Midway(cfg, s1, r, t, e) && Enabled(cfg, r, a) && !a.Lookup? && !a.Reap? && !a.Leave? && a.t == t
    ensures KeptAside(s1, Apply(cfg, r, a), t, e)
  {
    if OnFiles(a) {
      DownloadsAside(cfg, s1, r, t, e, a);
    } else {
      StoresAside(cfg, s1, r, t, e, a);
    }
  }

  ghost predicate KeptAside(s1: State, r: State, t: nat, e: nat) {
    Aside(s1, r, t, e) && ViewOf(r.entries[e]) == Marked(ViewOf(s1.entries[e]), r.threads[t])
  }

  lemma DownloadsAside(cfg: Config, s1: State, r: State, t: nat, e: nat, a: Action)
    requires Enabled(cfg, r, a) && OnFiles(a) && a.t == t && KeptAside(s1, r, t, e)
    ensures KeptAside(s1, Apply(cfg, r, a), t, e)
  {
    if a.Finish? {
      FinishAside(cfg, s1, r, t, e, a);
    } else if a.Open? {
      OpenAside(cfg, s1, r, t, e, a);
    }
  }

  lemma OpenAside(cfg: Config, s1: State, r: State, t: nat, e: nat, a: Action)
    requires Enabled(cfg, r, a) && a.Open? && a.t == t && KeptAside(s1, r, t, e)
    ensures KeptAside(s1, Apply(cfg, r, a), t, e)
  {
  }

  lemma FinishAside(cfg: Config, s1: State, r: State, t: nat, e: nat, a: Action)
    requires Enabled(cfg, r, a) && a.Finish? && a.t == t && KeptAside(s1, r, t, e)
    ensures KeptAside(s1, Apply(cfg, r, a), t, e)
  {
  }

  lemma StoresAside(cfg: Config, s1: State, r: State, t: nat, e: nat, a: Action)
    requires Enabled(cfg, r, a) && !OnFiles(a) && !a.Lookup? && !a.Reap? && !a.Leave? && a.t == t
    requires KeptAside(s1, r, t, e)
    ensures KeptAside(s1, Apply(cfg, r, a), t, e)
  {
  }

  lemma SameTmp(cfg: Config, s1: State, r: State, t: nat, e: nat)
    requires Midway(cfg, s1, r, t, e)
    ensures TmpOf(cfg, r.entries[e]) == TmpOf(cfg, s1.entries[e])
    ensures r.entries[e].location == s1.entries[e].location && r.entries[e].checksum == s1.entries[e].checksum
  {
  }

  lemma OpenStage(cfg: Config, s1: State, r: State, t: nat, e: nat, a: Action)
    requires Midway(cfg, s1, r, t, e) && Enabled(cfg, r, a) && a.Open? && a.t == t
    requires Wf(Apply(cfg, r, a))
    requires Files(Apply(cfg, r, a)) == FilesAfter(cfg, r, a)
    ensures var r' := Apply(cfg, r, a); At(r', t) && Stage(cfg, s1, r', e, r'.threads[t])
  {
    SameTmp(cfg, s1, r, t, e);
    if a.ok {
      OpenedIsEmpty(cfg, r, t);
    }
  }

  lemma OpenedIsEmpty(cfg: Config, r: State, t: nat)
    requires Enabled(cfg, r, Open(t, true))
    ensures var r' := DoOpen(cfg, r, t, true);
      && At(r', t) && r'.threads[t].Writing? && r'.threads[t].sent == [] && r'.threads[t].flushed == 0
      && FileAt(r', TmpOf(cfg, r.entries[r.threads[t].e]), r'.threads[t])
  {
  }

  lemma WriteStage(cfg: Config, s1: State, r: State, t: nat, e: nat, a: Action)
    requires Midway(cfg, s1, r, t, e) && Enabled(cfg, r, a) && (a.Deliver? || a.Fault?) && a.t == t
    requires Wf(Apply(cfg, r, a))
    ensures var r' := Apply(cfg, r, a); At(r', t) && Stage(cfg, s1, r', e, r'.threads[t])
  {
    SameTmp(cfg, s1, r, t, e);
  }

  /** The path a lone thread's stream is behind. */
  function SoloPath(cfg: Config, entry: Entry, pc: Pc): string {
    if pc.Closing? && pc.ok then entry.location else TmpOf(cfg, entry)
  }

  /** Where pouring goes, and what the file holds after it. */
  lemma PourStage(cfg: Config, s1: State, r: State, t: nat, e: nat, a: Action)
    requires Midway(cfg, s1, r, t, e) && Enabled(cfg, r, a) && Pours(a) && a.t == t
    ensures var r', pc := Apply(cfg, r, a), r.threads[t];
      && pc.ino < |r'.inodes| && r'.inodes[pc.ino] == pc.sent[..a.upto] && r'.dir == r.dir && NoLinks(r')
      && Files(r') == Files(r)[SoloPath(cfg, s1.entries[e], pc) := pc.sent[..a.upto]]
  {
    SameTmp(cfg, s1, r, t, e);
    PushExtends(r.inodes[r.threads[t].ino], r.threads[t], a.upto);
    PourBehind(cfg, r, a, SoloPath(cfg, s1.entries[e], r.threads[t]));
    PourKeepsDir(cfg, r, a);
  }

  lemma PourKeepsDir(cfg: Config, r: State, a: Action)
    requires Enabled(cfg, r, a) && Pours(a)
    ensures var r', pc := Apply(cfg, r, a), r.threads[a.t];
      && r'.dir == r.dir && pc.ino < |r'.inodes|
      && r'.inodes[pc.ino] == Pushed(r.inodes[pc.ino], pc, a.upto)
  {
  }

  lemma FlushStage(cfg: Config, s1: State, r: State, t: nat, e: nat, a: Action)
    requires Midway(cfg, s1, r, t, e) && Enabled(cfg, r, a) && a.Flush? && a.t == t
    requires s1.entries[e].location != TmpOf(cfg, s1.entries[e]) && Wf(Apply(cfg, r, a))
    ensures var r' := Apply(cfg, r, a); NoLinks(r') && At(r', t) && Stage(cfg, s1, r', e, r'.threads[t])
  {
    PourStage(cfg, s1, r, t, e, a);
    if r.threads[t].Closing? && r.threads[t].ok {
      PouredIsStored(cfg, s1, r, Apply(cfg, r, a), e, r.threads[t], a.upto);
    }
  }

  lemma FinishStage(cfg: Config, s1: State, r: State, t: nat, e: nat, a: Action)
    requires Midway(cfg, s1, r, t, e) && Enabled(cfg, r, a) && a.Finish? && a.t == t
    requires s1.entries[e].location != TmpOf(cfg, s1.entries[e]) && Wf(Apply(cfg, r, a))
    requires Files(Apply(cfg, r, a)) == FilesAfter(cfg, r, a)
    ensures var r' := Apply(cfg, r, a); At(r', t) && Stage(cfg, s1, r', e, r'.threads[t])
  {
    SameTmp(cfg, s1, r, t, e);
    var tmp, pc := TmpOf(cfg, s1.entries[e]), r.threads[t];
    Renamed(Files(r), Files(s1), tmp, s1.entries[e].location, pc.sent[..pc.flushed]);
    assert Files(r)[tmp] == pc.sent[..pc.flushed];
    var r' := Apply(cfg, r, a);
    if r'.threads[t].ok {
      assert Files(r') == (Files(r) - {tmp})[s1.entries[e].location := pc.sent[..pc.flushed]];
      assert Stored(cfg, s1, r', e, pc.sent, pc.flushed);
    }
  }

  lemma CloseStage(cfg: Config, s1: State, r: State, t: nat, e: nat, a: Action)
    requires Midway(cfg, s1, r, t, e) && Enabled(cfg, r, a) && a.Close? && a.t == t
    requires s1.entries[e].location != TmpOf(cfg, s1.entries[e]) && Wf(Apply(cfg, r, a))
    ensures var r' := Apply(cfg, r, a); NoLinks(r') && At(r', t) && Stage(cfg, s1, r', e, r'.threads[t])
  {
    PourStage(cfg, s1, r, t, e, a);
    if r.threads[t].ok {
      PouredIsStored(cfg, s1, r, Apply(cfg, r, a), e, r.threads[t], a.upto);
    }
  }

  lemma FlagStage(cfg: Config, s1: State, r: State, t: nat, e: nat, a: Action)
    requires Midway(cfg, s1, r, t, e) && Enabled(cfg, r, a)
    requires (a.Acquire? || a.StoreDownloaded? || a.StoreAvailable?) && a.t == t
    requires Wf(Apply(cfg, r, a))
    ensures var r' := Apply(cfg, r, a); At(r', t) && Stage(cfg, s1, r', e, r'.threads[t])
  {
    var r' := Apply(cfg, r, a);
    assert Files(r') == Files(r);
    if a.StoreDownloaded? {
      SameFilesDone(cfg, s1, r, r', e, r.threads[t].ok);
      assert MayPublish(cfg, s1, r', e, r.threads[t].ok);
    } else if a.StoreAvailable? {
      var ok: bool :| MayPublish(cfg, s1, r, e, ok);
      SameFilesDone(cfg, s1, r, r', e, ok);
      assert MayPublish(cfg, s1, r', e, ok);
    }
  }

  /** Every step of the thread short of the last keeps it on its way. */
  lemma MovesOn(cfg: Config, s1: State, r: State, t: nat, e: nat, a: Action)
    requires Midway(cfg, s1, r, t, e) && Enabled(cfg, r, a) && !a.Lookup? && !a.Reap? && !a.Leave? && a.t == t
    requires s1.entries[e].location != TmpOf(cfg, s1.entries[e])
    ensures Midway(cfg, s1, Apply(cfg, r, a), t, e)
  {
    MovesAside(cfg, s1, r, t, e, a);
    KeepsWf(cfg, r, a);
    if Pours(a) {
      if a.Flush? { FlushStage(cfg, s1, r, t, e, a); } else { CloseStage(cfg, s1, r, t, e, a); }
    } else {
      Effect(cfg, r, a);
      if a.Open? { OpenStage(cfg, s1, r, t, e, a); }
      else if a.Deliver? || a.Fault? { WriteStage(cfg, s1, r, t, e, a); }
      else if a.Finish? { FinishStage(cfg, s1, r, t, e, a); }
      else { FlagStage(cfg, s1, r, t, e, a); }
    }
  }

  // ----- The return

  /** A transfer that explains how the download went. */
  lemma Explained(cfg: Config, s1: State, r: State, e: nat, ok: bool) returns (tr: Download.Transfer)
    requires e < |s1.entries| && Done(cfg, s1, r, e, ok)
    ensures Download.Succeeds(cfg.md5, s1.entries[e].checksum, tr) <==> ok
    ensures var tmp := TmpOf(cfg, s1.entries[e]);
      Files(r) - {tmp} == (if ok then Files(s1)[s1.entries[e].location := tr.OnDisk(Download.Concat(tr.chunks))]
                           else Files(s1)) - {tmp}
  {
    if ok {
      var content, upto: nat :| Stored(cfg, s1, r, e, content, upto);
      tr := Whole(content, upto);
    } else {
      tr := Download.Transfer(false, [], None, false, 0);
    }
  }

  lemma Whole(content: Bytes, upto: nat) returns (tr: Download.Transfer)
    requires upto <= |content|
    ensures tr.openOk && tr.AllWritten() && tr.renameOk && Download.Concat(tr.chunks) == content
    ensures tr.OnDisk(content) == content[..upto]
  {
    var chunks: seq<Bytes> := if content == [] then [] else [content];
    tr := Download.Transfer(true, chunks, None, true, upto);
    if content != [] {
      assert chunks[..0] == [];
    }
    assert content[..|content|] == content;
  }

  /** The last step: what the call leaves behind. */
  lemma Returns(cfg: Config, s1: State, r: State, t: nat, e: nat) returns (ok: bool, status: Status)
    requires Midway(cfg, s1, r, t, e) && Enabled(cfg, r, Leave(t))
    requires !s1.entries[e].downloaded && !s1.entries[e].available
    ensures var r' := Apply(cfg, r, Leave(t));
      && Wf(r') && Done(cfg, s1, r', e, ok) && (status.Ok? <==> ok || !cfg.honour)
      && Returned(s1, r', e, EndView(s1, e, status), status.Ok?)
  {
    KeepsWf(cfg, r, Leave(t));
    var r' := Apply(cfg, r, Leave(t));
    assert Files(r') == Files(r);
    assert r.threads - {t} == map[];
    if r.threads[t].Fetched? {
      ok, status := false, InternalError;
    } else {
      ok :| MayPublish(cfg, s1, r, e, ok);
      status := Ok;
    }
    SameFilesDone(cfg, s1, r, r', e, ok);
  }

  // ----- The whole run

  /** A run of one thread through one call. */
  ghost predicate SoloRun(cfg: Config, ss: seq<State>, acts: seq<Action>, t: nat) {
    && Run(cfg, ss, acts) && |acts| > 0 && acts[0].Lookup? && acts[0].t == t
    && (forall i | 0 <= i < |acts| :: OwnStepOf(acts[i], t))
    && (forall i | 0 < i < |acts| :: ss[i].threads != map[])
    && ss[|acts|].threads == map[]
  }

  predicate OwnStepOf(a: Action, t: nat) {
    !a.Reap? && a.t == t
  }

  function RequestOf(a: Action): Request
    requires a.Lookup?
  {
    Request(a.name, a.checksum, a.now)
  }

  lemma {:induction false} StaysMidway(cfg: Config, ss: seq<State>, acts: seq<Action>, t: nat, e: nat, i: nat)
    requires SoloRun(cfg, ss, acts, t) && 0 < i < |acts|
    requires Midway(cfg, ss[1], ss[1], t, e) && ss[1].entries[e].location != TmpOf(cfg, ss[1].entries[e])
    ensures Midway(cfg, ss[1], ss[i], t, e)
  {
    if i > 1 {
      StaysMidway(cfg, ss, acts, t, e, i - 1);
      NotYetGone(cfg, ss, acts, t, i - 1);
      MovesOn(cfg, ss[1], ss[i - 1], t, e, acts[i - 1]);
    }
  }

  /** A thread inside its call cannot look up, and leaving would end the run. */
  lemma NotYetGone(cfg: Config, ss: seq<State>, acts: seq<Action>, t: nat, i: nat)
    requires SoloRun(cfg, ss, acts, t) && 0 < i < |acts| && ss[i].threads.Keys == {t}
    ensures !acts[i].Lookup? && !acts[i].Reap? && acts[i].t == t && (acts[i].Leave? <==> i + 1 == |acts|)
  {
    assert OwnStepOf(acts[i], t) && t in ss[i].threads;
    if acts[i].Leave? {
      assert ss[i].threads - {t} == map[];
    }
  }

  /** One call, given how it was looked up. */
  lemma WaitedRunIsCall(cfg: Config, ss: seq<State>, acts: seq<Action>, t: nat, e: nat)
    returns (tr: Download.Transfer, status: Status, location: string)
    requires SoloRun(cfg, ss, acts, t) && Quiescent(cfg, ss[0])
    requires Awaits(cfg, ss[0], ss[1], t, RequestOf(acts[0]), e) && !ss[1].entries[e].available
    ensures Call(cfg.dir, cfg.md5, cfg.honour, WorldOf(ss[0]), RequestOf(acts[0]), tr,
                 WorldOf(ss[|acts|]), status, location)
    ensures ss[|acts|].answers
         == ss[0].answers + if status.Ok? then [Answer(acts[0].name, acts[0].checksum, e, location)] else []
  {
    var ok;
    SettledApart(cfg, ss[0], ss[1], t, RequestOf(acts[0]), e);
    StartsMidway(cfg, ss[0], ss[1], t, RequestOf(acts[0]), e);
    ok, status := RunReturns(cfg, ss, acts, t, e);
    tr := Explained(cfg, ss[1], ss[|acts|], e, ok);
    location := EndsCall(cfg, ss[0], ss[1], ss[|acts|], t, RequestOf(acts[0]), e, tr, status);
  }

  lemma StartsMidway(cfg: Config, s: State, s1: State, t: nat, req: Request, e: nat)
    requires Quiescent(cfg, s) && Awaits(cfg, s, s1, t, req, e) && !s1.entries[e].available
    ensures Midway(cfg, s1, s1, t, e)
  {
  }

  lemma LastStepLeaves(cfg: Config, ss: seq<State>, acts: seq<Action>, t: nat, n: nat)
    requires SoloRun(cfg, ss, acts, t) && n + 1 == |acts| && 0 < n && ss[n].threads.Keys == {t}
    ensures Enabled(cfg, ss[n], Leave(t)) && ss[n + 1] == Apply(cfg, ss[n], Leave(t))
  {
    NotYetGone(cfg, ss, acts, t, n);
    assert acts[n] == Leave(t);
  }

  lemma RunReturns(cfg: Config, ss: seq<State>, acts: seq<Action>, t: nat, e: nat) returns (ok: bool, status: Status)
    requires SoloRun(cfg, ss, acts, t) && Midway(cfg, ss[1], ss[1], t, e) && ss[1].threads != map[]
    requires ss[1].entries[e].location != TmpOf(cfg, ss[1].entries[e])
    requires !ss[1].entries[e].downloaded && !ss[1].entries[e].available
    ensures var r' := ss[|acts|];
      && Wf(r') && Done(cfg, ss[1], r', e, ok) && (status.Ok? <==> ok || !cfg.honour)
      && Returned(ss[1], r', e, EndView(ss[1], e, status), status.Ok?)
  {
    var n := |acts| - 1;
    StaysMidway(cfg, ss, acts, t, e, n);
    LastStepLeaves(cfg, ss, acts, t, n);
    ok, status := Returns(cfg, ss[1], ss[n], t, e);
  }

  /** Whatever a thread with the manager to itself does between its lookup and its return, in whatever
      order it flushes and wherever it fails, some behaviour of the transfer makes the sequential call
      do the same to the map and the directory and give the same answer. */
  lemma SoloRunIsCall(cfg: Config, ss: seq<State>, acts: seq<Action>, t: nat)
    returns (tr: Download.Transfer, status: Status, location: string)
    requires SoloRun(cfg, ss, acts, t) && Quiescent(cfg, ss[0])
    ensures Call(cfg.dir, cfg.md5, cfg.honour, WorldOf(ss[0]), RequestOf(acts[0]), tr,
                 WorldOf(ss[|acts|]), status, location)
    ensures |ss[|acts|].answers| == |ss[0].answers| + if status.Ok? then 1 else 0
    ensures status.Ok? ==> ss[|acts|].answers[|ss[0].answers|].location == location
  {
    var s, req := ss[0], RequestOf(acts[0]);
    if Settle(cfg.dir, WorldOf(s).live, req).available {
      tr, status := Download.Transfer(false, [], None, false, 0), Ok;
      location := HitIsCall(cfg, s, t, req, tr);
      assert ss[1].threads == map[];
    } else {
      var e := LookupAwaits(cfg, s, t, req);
      assert At(ss[1], t);
      tr, status, location := WaitedRunIsCall(cfg, ss, acts, t, e);
    }
  }
}
