/** Who is answered, who is not, and that nobody is kept from an answer by the other threads. */
module DriverAnswers {
  import opened Wrappers
  import opened DriverCodec
  import opened DriverProtocol
  import opened DriverInvariants
  import opened DriverSafety
  import opened Decimal
  import opened Md5
  import Download = DownloadUtil

  // ----- A call that ends

  /** Exactly one answer was given, from entry `e`. */
  predicate AnswersFrom(s: State, s': State, e: nat) {
    && s'.answers != [] && s'.answers == s.answers + [LastAnswer(s')]
    && LastAnswer(s').e == e
  }

  /** The thread's download failed and its status is returned to the caller. */
  predicate GivesUp(cfg: Config, s: State, t: nat)
    requires At(s, t)
  {
    cfg.honour && s.threads[t].Fetched? && !s.threads[t].ok
  }

  /** Over every run: a thread that leaves is answered from its entry exactly when that entry is
      available by then; and the only way to leave without is to have failed oneself. */
  lemma LeaverIsAnsweredIff(cfg: Config, ss: seq<State>, acts: seq<Action>, i: nat, t: nat)
    requires Run(cfg, ss, acts) && Initial(cfg, ss[0]) && i < |acts|
    requires At(ss[i], t) && !At(ss[i + 1], t)
    ensures var e := ss[i].threads[t].e;
      && e < |ss[i].entries|
      && (ss[i].entries[e].available <==> AnswersFrom(ss[i], ss[i + 1], e))
      && (GivesUp(cfg, ss[i], t) <==> ss[i + 1].answers == ss[i].answers)
      && (ss[i].entries[e].available <==> !GivesUp(cfg, ss[i], t))
  {
    RunControl(cfg, ss, acts, i);
    OnlyLeaveLeaves(cfg, ss[i], acts[i], t);
    LeaveAnswersIff(cfg, ss[i], t);
  }

  lemma OnlyLeaveLeaves(cfg: Config, s: State, a: Action, t: nat)
    requires Enabled(cfg, s, a) && At(s, t) && !At(Apply(cfg, s, a), t)
    ensures a == Leave(t)
  {
    if !a.Lookup? && !a.Reap? && a.t != t {
      StepIsLocal(cfg, s, a);
    }
  }

  lemma LeaveAnswersIff(cfg: Config, s: State, t: nat)
    requires Enabled(cfg, s, Leave(t)) && LockInv(cfg, s)
    ensures var s', e := Apply(cfg, s, Leave(t)), s.threads[t].e;
      && (s.entries[e].available <==> AnswersFrom(s, s', e))
      && (GivesUp(cfg, s, t) <==> s'.answers == s.answers)
      && (s.entries[e].available <==> !GivesUp(cfg, s, t))
  {
    assert OwnerOk(cfg, s, s.threads[t].e);
  }

  /** And every request is answered on the spot exactly when its name is mapped to an available entry
      with its checksum, from that entry; otherwise its thread waits for an unavailable one. */
  lemma LookupAnswersIff(cfg: Config, ss: seq<State>, acts: seq<Action>, i: nat)
    requires Run(cfg, ss, acts) && Initial(cfg, ss[0]) && i < |acts| && acts[i].Lookup?
    ensures var s, s', a := ss[i], ss[i + 1], acts[i];
      if a.name in s.emap && s.emap[a.name] < |s.entries|
         && s.entries[s.emap[a.name]].checksum == a.checksum && s.entries[s.emap[a.name]].available
      then !At(s', a.t) && AnswersFrom(s, s', s.emap[a.name])
      else
        && At(s', a.t) && s'.answers == s.answers && s'.threads[a.t].Waiting?
        && s'.threads[a.t].e < |s'.entries| && !s'.entries[s'.threads[a.t].e].available
  {
    RunControl(cfg, ss, acts, i);
  }

  /** No other call keeps anyone from asking. */
  lemma AnyoneMayAsk(
    cfg: Config, ss: seq<State>, acts: seq<Action>, i: nat, t: nat, name: string, checksum: string, now: Int64)
    requires Run(cfg, ss, acts) && Initial(cfg, ss[0]) && i < |ss|
    ensures Enabled(cfg, ss[i], Lookup(t, name, checksum, now)) <==> !At(ss[i], t)
  {
    RunControl(cfg, ss, acts, i);
  }

  // ----- A failed download

  /** The step makes thread `t`'s download fail: no stream, a broken one, or a finished one that was not
      put in place. */
  predicate Fails(cfg: Config, s: State, a: Action, t: nat)
    requires Enabled(cfg, s, a)
  {
    match a
    case Open(u, ok) => u == t && !ok
    case Deliver(u, data) => u == t && data == []
    case Fault(u) => u == t
    case Finish(u, renameOk) => u == t && !Completes(cfg, s, a, s.threads[t].e)
    case _ => false
  }

  predicate HasFailed(pc: Pc) {
    (pc.Closing? || pc.Fetched?) && !pc.ok
  }

  /** Step `k` of the call that thread `t` is in at `i` made its download fail. */
  ghost predicate FailedAt(cfg: Config, ss: seq<State>, acts: seq<Action>, k: nat, i: nat, t: nat)
    requires Run(cfg, ss, acts)
  {
    && k < i < |ss| && Fails(cfg, ss[k], acts[k], t)
    && forall l | k <= l <= i :: At(ss[l], t)
  }

  lemma FailsByStep(cfg: Config, s: State, a: Action, t: nat)
    requires Enabled(cfg, s, a) && At(Apply(cfg, s, a), t) && HasFailed(Apply(cfg, s, a).threads[t])
    ensures At(s, t) && (HasFailed(s.threads[t]) || Fails(cfg, s, a, t))
  {
    if !a.Lookup? && !a.Reap? && a.t != t {
      StepIsLocal(cfg, s, a);
    }
  }

  /** A thread has failed only by a step of its own, in the call it is in. */
  lemma {:induction false} FailedByItself(cfg: Config, ss: seq<State>, acts: seq<Action>, i: nat, t: nat)
    returns (k: nat)
    requires Run(cfg, ss, acts) && Initial(cfg, ss[0]) && i < |ss|
    requires At(ss[i], t) && HasFailed(ss[i].threads[t])
    ensures FailedAt(cfg, ss, acts, k, i, t)
  {
    var m: nat := i - 1;
    assert Enabled(cfg, ss[m], acts[m]);
    FailsByStep(cfg, ss[m], acts[m], t);
    if Fails(cfg, ss[m], acts[m], t) {
      k := m;
    } else {
      k := FailedByItself(cfg, ss, acts, m, t);
    }
  }

  /** So who leaves without an answer has failed to download in that very call. */
  lemma UnansweredHasFailed(cfg: Config, ss: seq<State>, acts: seq<Action>, i: nat, t: nat) returns (k: nat)
    requires Run(cfg, ss, acts) && Initial(cfg, ss[0]) && i < |acts|
    requires At(ss[i], t) && !At(ss[i + 1], t) && ss[i + 1].answers == ss[i].answers
    ensures cfg.honour && FailedAt(cfg, ss, acts, k, i, t)
  {
    LeaverIsAnsweredIff(cfg, ss, acts, i, t);
    k := FailedByItself(cfg, ss, acts, i, t);
  }

  /** Finishing completes the entry exactly when the checksum stands for the digest of what was sent and
      the rename works: in a disciplined run the temporary file is always still there. */
  lemma FinishCompletesIff(cfg: Config, ss: seq<State>, acts: seq<Action>, i: nat)
    requires DisciplinedRun(cfg, ss, acts) && Initial(cfg, ss[0]) && i < |acts| && acts[i].Finish?
    ensures var s, s', a := ss[i], ss[i + 1], acts[i];
      var pc := s.threads[a.t];
      && pc.e < |s.entries| && pc.e < |s'.entries|
      && (s'.entries[pc.e].completed <==>
            a.renameOk && HexDecode(s.entries[pc.e].checksum) == Some(cfg.md5(pc.sent)))
  {
    RunInv(cfg, ss, acts, i);
    FinishCompletes(cfg, ss[i], acts[i]);
  }

  lemma FinishCompletes(cfg: Config, s: State, a: Action)
    requires Inv(cfg, s) && Enabled(cfg, s, a) && a.Finish?
    ensures var s', pc := Apply(cfg, s, a), s.threads[a.t];
      && pc.e < |s'.entries|
      && (s'.entries[pc.e].completed <==>
            a.renameOk && HexDecode(s.entries[pc.e].checksum) == Some(cfg.md5(pc.sent)))
  {
    var pc := s.threads[a.t];
    assert StreamOk(cfg, s, pc) && OwnerOk(cfg, s, pc.e);
    Download.MatchesIffStandsFor(cfg.md5, pc.sent, s.entries[pc.e].checksum);
  }

  // ----- Nobody is influenced by the others

  /** All that a thread inside a call goes by: where it stands, its entry, the file its stream writes
      and whether its temporary path exists. */
  datatype View = View(pc: Pc, entry: Entry, file: Bytes, tmp: bool)

  /** Which file that is does not matter, and neither does the entry's place in the list. */
  function Anonymous(pc: Pc): Pc {
    match pc
    case Waiting(_) => Waiting(0)
    case Locked(_) => Locked(0)
    case Writing(_, _, sent, flushed) => Writing(0, 0, sent, flushed)
    case Closing(_, _, sent, flushed, ok) => Closing(0, 0, sent, flushed, ok)
    case Fetched(_, ok) => Fetched(0, ok)
    case Flagged(_) => Flagged(0)
    case Published(_) => Published(0)
  }

  function ViewOf(cfg: Config, s: State, t: nat): View
    requires Wf(s) && At(s, t)
  {
    var pc := s.threads[t];
    View(Anonymous(pc), s.entries[pc.e], if HasStream(pc) then s.inodes[pc.ino] else [],
         TmpOf(cfg, s.entries[pc.e]) in s.dir)
  }

  predicate IsOwnStep(a: Action) {
    !a.Lookup? && !a.Reap?
  }

  /** Two states that look alike to a thread allow it the same steps, whatever the other threads and
      entries are. */
  lemma AlikeEnabled(cfg: Config, s: State, r: State, a: Action)
    requires Wf(s) && Wf(r) && IsOwnStep(a) && At(s, a.t) && At(r, a.t)
    requires ViewOf(cfg, s, a.t) == ViewOf(cfg, r, a.t)
    ensures Enabled(cfg, s, a) <==> Enabled(cfg, r, a)
  {
  }

  /** What the step leaves thread `t`'s entry as, what the thread sees if it stays, and otherwise what
      location it is given, if any. */
  datatype Outcome = Stays(view: View) | Leaves(entry: Entry, location: Option<string>)

  function OutcomeOf(cfg: Config, s: State, a: Action): Outcome
    requires Enabled(cfg, s, a) && IsOwnStep(a)
  {
    var s', e := Apply(cfg, s, a), s.threads[a.t].e;
    if Wf(s') && At(s', a.t) then Stays(ViewOf(cfg, s', a.t))
    else Leaves(s'.entries[e], if |s'.answers| > |s.answers| then Some(LastAnswer(s').location) else None)
  }

  lemma FailedOpenOutcome(cfg: Config, s: State, a: Action)
    requires Enabled(cfg, s, a) && a.Open? && !a.ok
    ensures var v := ViewOf(cfg, s, a.t);
      OutcomeOf(cfg, s, a) == Stays(v.(pc := Fetched(0, false)))
  {
  }

  lemma OpenOutcome(cfg: Config, s: State, a: Action)
    requires Enabled(cfg, s, a) && a.Open? && a.ok
    ensures var v := ViewOf(cfg, s, a.t);
      OutcomeOf(cfg, s, a) == Stays(View(Writing(0, 0, [], 0), v.entry, [], true))
  {
  }

  lemma AcquireOutcome(cfg: Config, s: State, a: Action)
    requires Enabled(cfg, s, a) && a.Acquire?
    ensures var v := ViewOf(cfg, s, a.t);
      OutcomeOf(cfg, s, a) == Stays(v.(pc := Locked(0), entry := v.entry.(owner := Some(a.t))))
  {
  }

  lemma DownloadedOutcome(cfg: Config, s: State, a: Action)
    requires Enabled(cfg, s, a) && a.StoreDownloaded?
    ensures var v := ViewOf(cfg, s, a.t);
      OutcomeOf(cfg, s, a) == Stays(v.(pc := Flagged(0), entry := v.entry.(downloaded := true)))
  {
  }

  lemma AvailableOutcome(cfg: Config, s: State, a: Action)
    requires Enabled(cfg, s, a) && a.StoreAvailable?
    ensures var v := ViewOf(cfg, s, a.t);
      OutcomeOf(cfg, s, a) == Stays(v.(pc := Published(0), entry := v.entry.(available := true)))
  {
  }

  lemma BrokenOutcome(cfg: Config, s: State, a: Action)
    requires Enabled(cfg, s, a) && (a.Fault? || (a.Deliver? && a.data == []))
    ensures var v := ViewOf(cfg, s, a.t);
      OutcomeOf(cfg, s, a) == Stays(v.(pc := Closing(0, 0, v.pc.sent, v.pc.flushed, false)))
  {
  }

  lemma DeliverOutcome(cfg: Config, s: State, a: Action)
    requires Enabled(cfg, s, a) && a.Deliver? && a.data != []
    ensures var v := ViewOf(cfg, s, a.t);
      OutcomeOf(cfg, s, a) == Stays(v.(pc := Writing(0, 0, v.pc.sent + a.data, v.pc.flushed)))
  {
  }

  lemma FlushOutcome(cfg: Config, s: State, a: Action)
    requires Enabled(cfg, s, a) && a.Flush?
    ensures var v := ViewOf(cfg, s, a.t);
      OutcomeOf(cfg, s, a) == Stays(v.(pc := v.pc.(flushed := a.upto), file := Pushed(v.file, v.pc, a.upto)))
  {
  }

  lemma CloseOutcome(cfg: Config, s: State, a: Action)
    requires Enabled(cfg, s, a) && a.Close?
    ensures var v := ViewOf(cfg, s, a.t);
      OutcomeOf(cfg, s, a)
      == Stays(View(Fetched(0, v.pc.ok), AfterClose(v.entry, v.pc, a.upto), [], v.tmp))
  {
  }

  lemma FinishOutcome(cfg: Config, s: State, a: Action)
    requires Enabled(cfg, s, a) && a.Finish?
    ensures var v := ViewOf(cfg, s, a.t);
      var ok := Download.Matches(cfg.md5, v.pc.sent, v.entry.checksum) && a.renameOk && v.tmp;
      OutcomeOf(cfg, s, a)
      == Stays(View(Closing(0, 0, v.pc.sent, v.pc.flushed, ok),
                    if ok then v.entry.(completed := true) else v.entry, v.file,
                    if ok then v.entry.location == TmpOf(cfg, v.entry) else v.tmp))
  {
  }

  lemma AlikeLeave(cfg: Config, s: State, r: State, a: Action)
    requires a.Leave?
    requires Enabled(cfg, s, a) && Enabled(cfg, r, a) && ViewOf(cfg, s, a.t) == ViewOf(cfg, r, a.t)
    ensures OutcomeOf(cfg, s, a) == OutcomeOf(cfg, r, a)
  {
  }

  lemma AlikeStream(cfg: Config, s: State, r: State, a: Action)
    requires a.Deliver? || a.Fault? || a.Flush? || a.Close?
    requires Enabled(cfg, s, a) && Enabled(cfg, r, a) && ViewOf(cfg, s, a.t) == ViewOf(cfg, r, a.t)
    ensures OutcomeOf(cfg, s, a) == OutcomeOf(cfg, r, a)
  {
    match a
    case Deliver(_, data) =>
      if data == [] {
        BrokenOutcome(cfg, s, a);
        BrokenOutcome(cfg, r, a);
      } else {
        DeliverOutcome(cfg, s, a);
        DeliverOutcome(cfg, r, a);
      }
    case Fault(_) =>
      BrokenOutcome(cfg, s, a);
      BrokenOutcome(cfg, r, a);
    case Flush(_, _) =>
      FlushOutcome(cfg, s, a);
      FlushOutcome(cfg, r, a);
    case Close(_, _) =>
      CloseOutcome(cfg, s, a);
      CloseOutcome(cfg, r, a);
  }

  lemma AlikeFlags(cfg: Config, s: State, r: State, a: Action)
    requires a.Acquire? || a.StoreDownloaded? || a.StoreAvailable?
    requires Enabled(cfg, s, a) && Enabled(cfg, r, a) && ViewOf(cfg, s, a.t) == ViewOf(cfg, r, a.t)
    ensures OutcomeOf(cfg, s, a) == OutcomeOf(cfg, r, a)
  {
    match a
    case Acquire(_) =>
      AcquireOutcome(cfg, s, a);
      AcquireOutcome(cfg, r, a);
    case StoreDownloaded(_) =>
      DownloadedOutcome(cfg, s, a);
      DownloadedOutcome(cfg, r, a);
    case StoreAvailable(_) =>
      AvailableOutcome(cfg, s, a);
      AvailableOutcome(cfg, r, a);
  }

  lemma AlikeFile(cfg: Config, s: State, r: State, a: Action)
    requires a.Open? || a.Finish?
    requires Enabled(cfg, s, a) && Enabled(cfg, r, a) && ViewOf(cfg, s, a.t) == ViewOf(cfg, r, a.t)
    ensures OutcomeOf(cfg, s, a) == OutcomeOf(cfg, r, a)
  {
    match a
    case Open(_, ok) =>
      if ok {
        OpenOutcome(cfg, s, a);
        OpenOutcome(cfg, r, a);
      } else {
        FailedOpenOutcome(cfg, s, a);
        FailedOpenOutcome(cfg, r, a);
      }
    case Finish(_, _) =>
      FinishOutcome(cfg, s, a);
      FinishOutcome(cfg, r, a);
  }

  /** And each has the same outcome in both. */
  lemma AlikeOutcome(cfg: Config, s: State, r: State, a: Action)
    requires IsOwnStep(a)
    requires Enabled(cfg, s, a) && Enabled(cfg, r, a) && ViewOf(cfg, s, a.t) == ViewOf(cfg, r, a.t)
    ensures OutcomeOf(cfg, s, a) == OutcomeOf(cfg, r, a)
  {
    if a.Leave? {
      AlikeLeave(cfg, s, r, a);
    } else if a.Open? || a.Finish? {
      AlikeFile(cfg, s, r, a);
    } else if a.Acquire? || a.StoreDownloaded? || a.StoreAvailable? {
      AlikeFlags(cfg, s, r, a);
    } else {
      AlikeStream(cfg, s, r, a);
    }
  }
}
