/** The discipline the safety results ask for is exact: where a request or an `fopen` breaks it, some
    continuation that keeps to it in every later step loses or damages a published file. */
module DriverExactness {
  import opened Wrappers
  import opened Decimal
  import opened DriverCodec
  import opened DriverProtocol
  import opened DriverInvariants
  import opened DriverSafety
  import opened DriverSolo
  import Download = DownloadUtil

  // ----- Destroying an entry

  /** The entry's location was generated, from parts a file name can be told from. */
  predicate Generated(cfg: Config, entry: Entry) {
    !HasUnderscore(entry.checksum) && IsInt64(entry.ts) && entry.location == Location(cfg.dir, JarOf(entry))
  }

  /** Destruction with removal takes the file of another entry away exactly when both were made for the
      same name and checksum in the same millisecond. */
  lemma ReapTakesIff(cfg: Config, s: State, e: nat, f: nat)
    requires Enabled(cfg, s, Reap(e)) && cfg.reap && f < |s.entries|
    requires Generated(cfg, s.entries[e]) && Generated(cfg, s.entries[f]) && s.entries[f].location in s.dir
    ensures s.entries[f].location !in Apply(cfg, s, Reap(e)).dir <==> JarOf(s.entries[f]) == JarOf(s.entries[e])
  {
    LocationAgrees(cfg.dir, JarOf(s.entries[e]));
    LocationAgrees(cfg.dir, JarOf(s.entries[f]));
  }

  // ----- Letting every call finish

  ghost predicate Consistent(cfg: Config, s: State) {
    MapInv(s) && LockInv(cfg, s)
  }

  predicate CalmEntry(a: Entry, b: Entry) {
    && JarOf(b) == JarOf(a) && b.location == a.location
    && b.condemned == a.condemned && b.destroyed == a.destroyed
    && b.completed == a.completed && b.cut == a.cut
  }

  /** Nothing was filed, put in place, cut short, condemned or destroyed in between. */
  ghost predicate Calm(s: State, s': State) {
    && s'.emap == s.emap && s'.dir == s.dir && |s'.entries| == |s.entries|
    && forall e | 0 <= e < |s.entries| :: CalmEntry(s.entries[e], s'.entries[e])
  }

  function Rank(pc: Pc): nat {
    match pc
    case Waiting(_) => 7
    case Locked(_) => 6
    case Writing(_, _, _, _) => 5
    case Closing(_, _, _, _, _) => 4
    case Fetched(_, _) => 3
    case Flagged(_) => 2
    case Published(_) => 1
  }

  /** A thread's shortest way out: it gives up a download it has not finished. */
  function WayOut(cfg: Config, s: State, t: nat): Action
    requires Wf(s) && At(s, t)
  {
    match s.threads[t]
    case Waiting(_) => Acquire(t)
    case Locked(e) => if s.entries[e].downloaded then Leave(t) else Open(t, false)
    case Writing(_, _, _, _) => Fault(t)
    case Closing(_, _, sent, _, _) => Close(t, |sent|)
    case Fetched(_, ok) => if ok || !cfg.honour then StoreDownloaded(t) else Leave(t)
    case Flagged(_) => StoreAvailable(t)
    case Published(_) => Leave(t)
  }

  predicate MayMove(s: State, t: nat)
    requires Wf(s)
  {
    At(s, t) && (HoldsLock(s.threads[t]) || s.entries[s.threads[t].e].owner.None?)
  }

  lemma WayOutIsOpen(cfg: Config, s: State, t: nat)
    requires Wf(s) && MayMove(s, t)
    ensures Enabled(cfg, s, WayOut(cfg, s, t)) && Disciplined(cfg, s, WayOut(cfg, s, t))
  {
  }

  lemma StreamWayOut(cfg: Config, s: State, t: nat)
    requires Wf(s) && At(s, t) && HasStream(s.threads[t]) && Enabled(cfg, s, WayOut(cfg, s, t))
    ensures Calm(s, Apply(cfg, s, WayOut(cfg, s, t))) && GoesOn(s, Apply(cfg, s, WayOut(cfg, s, t)), t)
  {
  }

  lemma EarlyWayOut(cfg: Config, s: State, t: nat)
    requires Wf(s) && At(s, t) && (s.threads[t].Waiting? || s.threads[t].Locked?) && Enabled(cfg, s, WayOut(cfg, s, t))
    ensures Calm(s, Apply(cfg, s, WayOut(cfg, s, t))) && GoesOn(s, Apply(cfg, s, WayOut(cfg, s, t)), t)
  {
  }

  lemma LateWayOut(cfg: Config, s: State, t: nat)
    requires Wf(s) && At(s, t) && (s.threads[t].Fetched? || s.threads[t].Flagged? || s.threads[t].Published?)
    requires Enabled(cfg, s, WayOut(cfg, s, t))
    ensures Calm(s, Apply(cfg, s, WayOut(cfg, s, t))) && GoesOn(s, Apply(cfg, s, WayOut(cfg, s, t)), t)
  {
  }

  /** The thread is nearer its end, and no other thread came, went or moved. */
  ghost predicate GoesOn(s: State, s': State, t: nat)
    requires At(s, t)
  {
    if At(s', t) then
      && s'.threads == s.threads[t := s'.threads[t]]
      && HoldsLock(s'.threads[t]) && Rank(s'.threads[t]) < Rank(s.threads[t])
    else s'.threads == s.threads - {t}
  }

  lemma WayOutGoesOn(cfg: Config, s: State, t: nat, s': State)
    requires Wf(s) && MayMove(s, t) && Enabled(cfg, s, WayOut(cfg, s, t)) && s' == Apply(cfg, s, WayOut(cfg, s, t))
    ensures Calm(s, s') && GoesOn(s, s', t)
  {
    if HasStream(s.threads[t]) {
      StreamWayOut(cfg, s, t);
    } else if s.threads[t].Waiting? || s.threads[t].Locked? {
      EarlyWayOut(cfg, s, t);
    } else {
      LateWayOut(cfg, s, t);
    }
  }

  lemma CalmTransitive(a: State, b: State, c: State)
    requires Calm(a, b) && Calm(b, c)
    ensures Calm(a, c)
  {
    forall e | 0 <= e < |a.entries|
      ensures CalmEntry(a.entries[e], c.entries[e])
    {
      assert CalmEntry(a.entries[e], b.entries[e]) && CalmEntry(b.entries[e], c.entries[e]);
    }
  }

  /** A thread that holds its entry's lock, or can have it, can be brought to the end of its call. */
  lemma {:induction false} Finishes(cfg: Config, s0: Origin, s: State, t: nat) returns (s': State)
    requires Reaches(cfg, s0, s) && Consistent(cfg, s) && MayMove(s, t)
    ensures Reaches(cfg, s0, s') && Consistent(cfg, s') && Calm(s, s')
    ensures s'.threads == s.threads - {t}
    decreases Rank(s.threads[t])
  {
    s' := MovesOut(cfg, s0, s, t);
    if At(s', t) {
      var s1 := s';
      assert s1.threads - {t} == s.threads - {t};
      s' := Finishes(cfg, s0, s1, t);
      CalmTransitive(s, s1, s');
    }
  }

  lemma MovesOut(cfg: Config, s0: Origin, s: State, t: nat) returns (s': State)
    requires Reaches(cfg, s0, s) && Consistent(cfg, s) && MayMove(s, t)
    ensures Reaches(cfg, s0, s') && Consistent(cfg, s') && Calm(s, s') && GoesOn(s, s', t)
  {
    var a := WayOut(cfg, s, t);
    WayOutIsOpen(cfg, s, t);
    KeepsMap(cfg, s, a);
    KeepsLocks(cfg, s, a);
    s' := Apply(cfg, s, a);
    WayOutGoesOn(cfg, s, t, s');
    Step(cfg, s0, s, a, s');
  }

  /** Some thread can always move. */
  lemma SomeoneMoves(cfg: Config, s: State) returns (t: nat)
    requires Consistent(cfg, s) && s.threads != map[]
    ensures MayMove(s, t)
  {
    t :| t in s.threads;
    var e := s.threads[t].e;
    assert OwnerOk(cfg, s, e);
    if s.entries[e].owner.Some? {
      t := s.entries[e].owner.value;
    }
  }

  /** From any consistent state all calls can be let finish, in a disciplined way. */
  lemma {:induction false} Drains(cfg: Config, s0: Origin, s: State) returns (s': State)
    requires Reaches(cfg, s0, s) && Consistent(cfg, s)
    ensures Reaches(cfg, s0, s') && Consistent(cfg, s') && Calm(s, s') && s'.threads == map[]
    decreases |s.threads.Keys|
  {
    if s.threads == map[] {
      s' := s;
    } else {
      var t := SomeoneMoves(cfg, s);
      var s1 := Finishes(cfg, s0, s, t);
      assert s.threads.Keys == s1.threads.Keys + {t};
      s' := Drains(cfg, s0, s1);
      CalmTransitive(s, s1, s');
    }
  }

  // ----- Creating an entry

  /** Every available owner of a location whose own close lost nothing that matters has its good file. */
  ghost predicate Serving(cfg: Config, s: State) {
    forall e: nat | IsServed(cfg, s, e) :: HasFile(cfg, s, e)
  }

  predicate IsServed(cfg: Config, s: State, e: nat) {
    e < |s.entries| && Owner(cfg, s, e) && s.entries[e].available && Sound(cfg, s, e)
  }

  lemma InvServes(cfg: Config, s: State)
    requires Inv(cfg, s) && cfg.honour
    ensures Serving(cfg, s)
  {
    forall e: nat | IsServed(cfg, s, e)
      ensures HasFile(cfg, s, e)
    {
      assert FileOk(cfg, s, e) && OwnerOk(cfg, s, e);
    }
  }

  /** After a disciplined step every disciplined continuation serves what it has published. */
  lemma DisciplinedIsSafe(cfg: Config, s: State, a: Action, s': State)
    requires Inv(cfg, s) && cfg.honour && Enabled(cfg, s, a) && Disciplined(cfg, s, a)
    requires Reaches(cfg, Carefully(Apply(cfg, s, a)), s')
    ensures Serving(cfg, s')
  {
    KeepsInv(cfg, s, a);
    var ss: seq<State>, acts: seq<Action> :| Joins(cfg, Carefully(Apply(cfg, s, a)), ss, acts, s');
    InvAlong(cfg, ss, acts, |acts|);
    InvServes(cfg, s');
  }

  /** Entry `f` is mapped and not yet available, and no thread is inside a call. */
  ghost predicate Idle(cfg: Config, s: State, f: nat) {
    Consistent(cfg, s) && s.threads == map[] && IsMapped(s, f) && !s.entries[f].available
  }

  /** A thread takes the lock of an idle entry. */
  lemma Takes(cfg: Config, s0: Origin, s: State, t: nat, f: nat) returns (s': State)
    requires Reaches(cfg, s0, s) && Idle(cfg, s, f)
    ensures Reaches(cfg, s0, s') && Wf(s') && s'.threads == map[t := Locked(f)]
    ensures |s'.entries| == |s.entries| && s'.entries == s.entries[f := s.entries[f].(owner := Some(t))]
    ensures s'.emap == s.emap && s'.dir == s.dir && !s'.entries[f].downloaded
  {
    assert OwnerOk(cfg, s, f);
    ByLookup(cfg, s0, s, t, s.entries[f].name, s.entries[f].checksum, 0);
    var s1 := DoLookup(cfg, s, t, s.entries[f].name, s.entries[f].checksum, 0);
    assert s1 == s.(threads := map[t := Waiting(f)]);
    ByAcquire(cfg, s0, s1, t, f);
    s' := SetPc(SetEntry(s1, f, s1.entries[f].(owner := Some(t))), t, Locked(f));
  }

  /** And publishes it. */
  lemma Publishes(cfg: Config, s0: Origin, s: State, t: nat, f: nat, data: Bytes) returns (s': State)
    requires Reaches(cfg, s0, s) && Idle(cfg, s, f)
    requires data != [] && Download.Matches(cfg.md5, data, s.entries[f].checksum)
    ensures Reaches(cfg, s0, s') && Wf(s') && s'.emap == s.emap && |s'.entries| == |s.entries|
    ensures s'.threads == map[t := Published(f)] && s'.entries[f].available
    ensures forall e | 0 <= e < |s.entries| :: SameClaim(s.entries[e], s'.entries[e])
  {
    var s1 := Takes(cfg, s0, s, t, f);
    s' := Delivers(cfg, s0, s1, t, f, data);
    PublishedKeeps(cfg, s, s1, t, f, data);
  }

  /** A thread that holds its entry's lock publishes it, nobody streaming into its temporary path. */
  lemma Delivers(cfg: Config, s0: Origin, s: State, t: nat, f: nat, data: Bytes) returns (s': State)
    requires Reaches(cfg, s0, s) && Wf(s) && At(s, t) && s.threads[t] == Locked(f) && !s.entries[f].downloaded
    requires TmpUnused(cfg, s, TmpOf(cfg, s.entries[f]))
    requires data != [] && Download.Matches(cfg.md5, data, s.entries[f].checksum)
    ensures s' == Downloaded(cfg, s, t, f, data, s.entries[f].cut) && Reaches(cfg, s0, s') && Wf(s')
  {
    assert Download.Concat([data]) == data && data[..|data|] == data;
    Opens(cfg, s0, s, t, f);
    Downloads(cfg, s0, s, t, f, [data], |data|);
    s' := Downloaded(cfg, s, t, f, data, s.entries[f].cut);
  }

  lemma PublishedKeeps(cfg: Config, s: State, s1: State, t: nat, f: nat, data: Bytes)
    requires Wf(s1) && f < |s.entries| == |s1.entries|
    requires s1.entries == s.entries[f := s.entries[f].(owner := Some(t))] && s1.threads == map[t := Locked(f)]
    ensures var s' := Downloaded(cfg, s1, t, f, data, s1.entries[f].cut);
      && s'.emap == s1.emap && |s'.entries| == |s.entries| && s'.entries[f].available
      && s'.threads == map[t := Published(f)]
      && forall e | 0 <= e < |s.entries| :: SameClaim(s.entries[e], s'.entries[e])
  {
  }

  /** The entries agree in all but their download. */
  predicate SameClaim(a: Entry, b: Entry) {
    && JarOf(b) == JarOf(a) && b.location == a.location
    && b.condemned == a.condemned && b.destroyed == a.destroyed && b.cut == a.cut
  }

  /** With removal: an idle or available entry `f` mapped and a condemned entry at its location, `f` can
      come to be available without a file. */
  lemma LosesFile(cfg: Config, s0: Origin, s: State, t: nat, e: nat, f: nat, data: Bytes) returns (s': State)
    requires cfg.reap && Reaches(cfg, s0, s) && Consistent(cfg, s) && s.threads == map[] && IsMapped(s, f)
    requires e < |s.entries| && s.entries[e].condemned && !s.entries[e].destroyed
    requires s.entries[e].location == s.entries[f].location && s.entries[f].cut.None?
    requires data != [] && Download.Matches(cfg.md5, data, s.entries[f].checksum)
    ensures Reaches(cfg, s0, s') && |s'.entries| == |s.entries| && IsMapped(s', f) && Betrays(cfg, s', f)
  {
    assert !s.entries[f].condemned;
    var s1 := s;
    if !s.entries[f].available {
      s1 := Publishes(cfg, s0, s, t, f, data);
    }
    assert SameClaim(s.entries[e], s1.entries[e]) && SameClaim(s.entries[f], s1.entries[f]);
    assert e !in s1.emap.Values;
    ByReap(cfg, s0, s1, e);
    s' := DoReap(cfg, s1, e);
  }

  /** Entry `f` is available and alive, no close of its own fell short, and its file is gone or wrong. */
  ghost predicate Betrays(cfg: Config, s: State, f: nat) {
    && f < |s.entries| && s.entries[f].available && !s.entries[f].destroyed && s.entries[f].cut.None?
    && !HasFile(cfg, s, f)
  }

  /** A request that creates an entry at the location of one that contends for it. */
  ghost predicate Collides(cfg: Config, s: State, a: Action, e: nat) {
    && Enabled(cfg, s, a) && a.Lookup? && Creates(s, a.name, a.checksum) && e < |s.entries|
    && Contends(cfg, s, e) && s.entries[e].location == Location(cfg.dir, Jar(a.name, a.checksum, a.now))
  }

  /** Such an entry was made for the same driver, so it is not the mapped one, or the request would have
      been content with it. */
  lemma ColliderIsCondemned(cfg: Config, s: State, a: Action, e: nat)
    requires MapInv(s) && NameInv(cfg, s) && Collides(cfg, s, a, e) && !HasUnderscore(a.checksum)
    ensures JarOf(s.entries[e]) == Jar(a.name, a.checksum, a.now) && s.entries[e].condemned
  {
    LocationAgrees(cfg.dir, Jar(a.name, a.checksum, a.now));
  }

  /** The request files its entry; the other one stays as it was. */
  lemma CollisionFiles(cfg: Config, s: State, a: Action, e: nat)
    requires Collides(cfg, s, a, e) && MapInv(s) && s.entries[e].condemned
    ensures var s', f := Apply(cfg, s, a), |s.entries|;
      && |s'.entries| == f + 1 && IsMapped(s', f) && s'.entries[f] == NewEntry(cfg, a.name, a.checksum, a.now)
      && s'.entries[e] == s.entries[e] && s'.threads == s.threads[a.t := Waiting(f)]
  {
  }

  /** With removal: whatever else is under way, such a request can be followed, all further steps being
      disciplined, by a state in which its entry is mapped and available and its file is gone. */
  lemma CollisionLosesFile(cfg: Config, s: State, a: Action, e: nat, data: Bytes) returns (s': State)
    requires cfg.reap && Consistent(cfg, s) && NameInv(cfg, s) && Collides(cfg, s, a, e)
    requires !HasUnderscore(a.checksum) && data != [] && Download.Matches(cfg.md5, data, a.checksum)
    ensures Reaches(cfg, Carefully(Apply(cfg, s, a)), s') && |s'.entries| == |s.entries| + 1
    ensures IsMapped(s', |s.entries|) && Betrays(cfg, s', |s.entries|)
  {
    ColliderIsCondemned(cfg, s, a, e);
    CollisionFiles(cfg, s, a, e);
    KeepsMap(cfg, s, a);
    KeepsLocks(cfg, s, a);
    s' := AfterCollision(cfg, Apply(cfg, s, a), a.t, e, |s.entries|, data);
  }

  lemma AfterCollision(cfg: Config, s: State, t: nat, e: nat, f: nat, data: Bytes) returns (s': State)
    requires cfg.reap && Consistent(cfg, s) && IsMapped(s, f)
    requires e < |s.entries| && s.entries[e].condemned && !s.entries[e].destroyed
    requires s.entries[e].location == s.entries[f].location && s.entries[f].cut.None?
    requires data != [] && Download.Matches(cfg.md5, data, s.entries[f].checksum)
    ensures Reaches(cfg, Carefully(s), s') && |s'.entries| == |s.entries| && IsMapped(s', f) && Betrays(cfg, s', f)
  {
    var s0 := Carefully(s);
    Stay(cfg, s0);
    var s1 := Drains(cfg, s0, s);
    assert CalmEntry(s.entries[e], s1.entries[e]) && CalmEntry(s.entries[f], s1.entries[f]);
    s' := LosesFile(cfg, s0, s1, t, e, f, data);
  }

  // ----- Without removal: a late download

  /** Every thread that holds a lock, save `u`, has left; `u` and the waiting ones stand where they did. */
  ghost predicate OnlyHolder(s: State, u: nat) {
    forall t | t in s.threads && t != u :: s.threads[t].Waiting?
  }

  predicate StandsStill(s: State, s': State, t: nat)
    requires t in s.threads
  {
    t in s'.threads && s'.threads[t] == s.threads[t]
  }

  ghost predicate LeavesWaiting(s: State, s': State, u: nat) {
    forall t | t in s.threads && (t == u || s.threads[t].Waiting?) :: StandsStill(s, s', t)
  }

  lemma {:induction false} Clears(cfg: Config, s0: Origin, s: State, u: nat) returns (s': State)
    requires Reaches(cfg, s0, s) && Consistent(cfg, s)
    ensures Reaches(cfg, s0, s') && Consistent(cfg, s') && Calm(s, s') && OnlyHolder(s', u)
    ensures LeavesWaiting(s, s', u)
    decreases |s.threads.Keys|
  {
    if t :| t in s.threads && t != u && !s.threads[t].Waiting? {
      var s1 := Finishes(cfg, s0, s, t);
      assert s.threads.Keys == s1.threads.Keys + {t};
      s' := Clears(cfg, s0, s1, u);
      CalmTransitive(s, s1, s');
      LeavesMore(s, s1, s', u, t);
    } else {
      s' := s;
    }
  }

  lemma LeavesMore(s: State, s1: State, s': State, u: nat, t: nat)
    requires t in s.threads && t != u && !s.threads[t].Waiting? && s1.threads == s.threads - {t}
    requires LeavesWaiting(s1, s', u)
    ensures LeavesWaiting(s, s', u)
  {
    forall v | v in s.threads && (v == u || s.threads[v].Waiting?)
      ensures StandsStill(s, s', v)
    {
      assert v in s1.threads && StandsStill(s1, s', v);
    }
  }

  /** A waiting thread takes its entry's lock, nobody else holding any. */
  lemma Acquires(cfg: Config, s0: Origin, s: State, u: nat, v: nat, e: nat) returns (s': State)
    requires Reaches(cfg, s0, s) && Consistent(cfg, s) && OnlyHolder(s, v) && At(s, u) && s.threads[u] == Waiting(e)
    requires At(s, v) && s.threads[v].e == e ==> v == u
    ensures Reaches(cfg, s0, s') && Consistent(cfg, s')
    ensures s' == SetPc(SetEntry(s, e, s.entries[e].(owner := Some(u))), u, Locked(e))
  {
    assert OwnerOk(cfg, s, e);
    ByAcquire(cfg, s0, s, u, e);
    KeepsMap(cfg, s, Acquire(u));
    KeepsLocks(cfg, s, Acquire(u));
    s' := SetPc(SetEntry(s, e, s.entries[e].(owner := Some(u))), u, Locked(e));
  }

  /** Thread `u` is about to download entry `e`, thread `t` waits for entry `f`, and no stream is open. */
  ghost predicate Poised(cfg: Config, s: State, u: nat, e: nat, t: nat, f: nat) {
    && Consistent(cfg, s) && OnlyHolder(s, u) && e < |s.entries| && f < |s.entries| && e != f
    && At(s, u) && s.threads[u] == Locked(e) && At(s, t) && s.threads[t] == Waiting(f)
    && !s.entries[e].completed && !s.entries[f].completed
  }

  lemma GetsPoised(cfg: Config, s0: Origin, s: State, u: nat, e: nat, t: nat, f: nat) returns (s': State)
    requires Reaches(cfg, s0, s) && Consistent(cfg, s) && e < |s.entries| && f < |s.entries| && e != f
    requires Queues(s, u, e) && At(s, t) && s.threads[t] == Waiting(f)
    requires !s.entries[e].completed && !s.entries[f].completed
    ensures Reaches(cfg, s0, s') && Poised(cfg, s', u, e, t, f) && s'.emap == s.emap && |s'.entries| == |s.entries|
    ensures CalmEntry(s.entries[e], s'.entries[e]) && CalmEntry(s.entries[f], s'.entries[f])
  {
    var s1 := Clears(cfg, s0, s, u);
    assert StandsStill(s, s1, u) && StandsStill(s, s1, t);
    assert CalmEntry(s.entries[e], s1.entries[e]) && CalmEntry(s.entries[f], s1.entries[f]);
    s' := s1;
    if s1.threads[u].Waiting? {
      s' := Acquires(cfg, s0, s1, u, u, e);
      AcquiredIsPoised(cfg, s1, s', u, e, t, f);
    }
  }

  lemma AcquiredIsPoised(cfg: Config, s1: State, s': State, u: nat, e: nat, t: nat, f: nat)
    requires Wf(s1) && OnlyHolder(s1, u) && e < |s1.entries| && f < |s1.entries| && e != f && t != u
    requires At(s1, u) && At(s1, t) && s1.threads[t] == Waiting(f)
    requires !s1.entries[e].completed && !s1.entries[f].completed
    requires s' == SetPc(SetEntry(s1, e, s1.entries[e].(owner := Some(u))), u, Locked(e)) && Consistent(cfg, s')
    ensures Poised(cfg, s', u, e, t, f)
    ensures CalmEntry(s1.entries[e], s'.entries[e]) && s'.entries[f] == s1.entries[f]
    ensures s'.emap == s1.emap && |s'.entries| == |s1.entries|
  {
  }

  /** The other thread publishes its entry first. */
  lemma PublishesFirst(cfg: Config, s0: Origin, s: State, u: nat, e: nat, t: nat, f: nat, data: Bytes)
    returns (s': State)
    requires cfg.honour && Reaches(cfg, s0, s) && Poised(cfg, s, u, e, t, f)
    requires data != [] && Download.Matches(cfg.md5, data, s.entries[f].checksum)
    ensures Reaches(cfg, s0, s') && Wf(s') && |s'.entries| == |s.entries| && s'.emap == s.emap
    ensures s'.entries[e] == s.entries[e] && SameClaim(s.entries[f], s'.entries[f]) && s'.entries[f].available
    ensures At(s', u) && s'.threads[u] == Locked(e) && forall v | v in s'.threads :: !OnTmp(s'.threads[v])
  {
    var s1 := AcquiresBeside(cfg, s0, s, u, e, t, f);
    s' := Delivers(cfg, s0, s1, t, f, data);
    PublishedBeside(cfg, s1, u, e, t, f, data);
  }

  /** Both threads hold their entries' locks, the others wait. */
  ghost predicate BothHold(s: State, u: nat, e: nat, t: nat, f: nat) {
    && Wf(s) && e < |s.entries| && f < |s.entries| && e != f && u != t
    && At(s, u) && s.threads[u] == Locked(e) && At(s, t) && s.threads[t] == Locked(f)
    && (forall v | v in s.threads && v != u && v != t :: s.threads[v].Waiting?)
  }

  lemma AcquiresBeside(cfg: Config, s0: Origin, s: State, u: nat, e: nat, t: nat, f: nat) returns (s1: State)
    requires cfg.honour && Reaches(cfg, s0, s) && Poised(cfg, s, u, e, t, f)
    ensures Reaches(cfg, s0, s1) && BothHold(s1, u, e, t, f) && !s1.entries[f].downloaded
    ensures s1.emap == s.emap && |s1.entries| == |s.entries| && s1.entries[e] == s.entries[e]
    ensures s1.entries[f] == s.entries[f].(owner := Some(t))
  {
    s1 := Acquires(cfg, s0, s, t, u, f);
    NotDownloaded(cfg, s1, t);
  }

  lemma NotDownloaded(cfg: Config, s: State, t: nat)
    requires cfg.honour && LockInv(cfg, s) && At(s, t) && s.threads[t].Locked?
    requires !s.entries[s.threads[t].e].completed
    ensures !s.entries[s.threads[t].e].downloaded
  {
    assert OwnerOk(cfg, s, s.threads[t].e);
  }

  lemma PublishedBeside(cfg: Config, s1: State, u: nat, e: nat, t: nat, f: nat, data: Bytes)
    requires BothHold(s1, u, e, t, f)
    ensures var s' := Downloaded(cfg, s1, t, f, data, s1.entries[f].cut);
      && |s'.entries| == |s1.entries| && s'.emap == s1.emap
      && s'.entries[e] == s1.entries[e] && SameClaim(s1.entries[f], s'.entries[f]) && s'.entries[f].available
      && At(s', u) && s'.threads[u] == Locked(e) && forall v | v in s'.threads :: !OnTmp(s'.threads[v])
  {
  }

  /** And the late download puts a file in its place that is not all there yet. */
  lemma RenamesOver(cfg: Config, s0: Origin, s: State, u: nat, e: nat, f: nat, data: Bytes, k: nat)
    returns (s': State)
    requires Reaches(cfg, s0, s) && Wf(s) && At(s, u) && s.threads[u] == Locked(e) && !s.entries[e].downloaded
    requires forall v | v in s.threads :: !OnTmp(s.threads[v])
    requires f < |s.entries| && f != e && s.entries[f].location == s.entries[e].location
    requires data != [] && Download.Matches(cfg.md5, data, s.entries[e].checksum) && k <= |data|
    ensures Reaches(cfg, s0, s') && s'.emap == s.emap && |s'.entries| == |s.entries| && s'.entries[f] == s.entries[f]
    ensures s.entries[f].location in Files(s') && Files(s')[s.entries[f].location] == data[..k]
  {
    assert Download.Concat([data]) == data;
    Opens(cfg, s0, s, u, e);
    Lands(cfg, s0, s, u, e, [data]);
    var s1 := Landed(cfg, s, u, e, data);
    ByFlush(cfg, s0, s1, u, k);
    s' := DoFlush(s1, u, k);
    LandedFlush(cfg, s, u, e, data, k);
  }

  lemma LandedFlush(cfg: Config, s: State, u: nat, e: nat, data: Bytes, k: nat)
    requires Wf(s) && At(s, u) && s.threads[u] == Locked(e) && k <= |data| && Wf(Landed(cfg, s, u, e, data))
    ensures var s', location := DoFlush(Landed(cfg, s, u, e, data), u, k), s.entries[e].location;
      location in Files(s') && Files(s')[location] == data[..k]
  {
    assert data[0..k] == data[..k];
    assert WriteAt([], 0, data[..k]) == data[..k];
  }

  /** Without removal: a thread in a call for the other entry that has yet to open its stream can be let
      download after the new entry is published, and put an unfinished file in place of its file. */
  lemma CollisionSpoilsFile(cfg: Config, s: State, a: Action, e: nat, data: Bytes, k: nat) returns (s': State)
    requires !cfg.reap && cfg.honour && Consistent(cfg, s) && NameInv(cfg, s) && Collides(cfg, s, a, e)
    requires |cfg.loaded| <= |s.entries| && !HasUnderscore(a.checksum)
    requires data != [] && Download.Matches(cfg.md5, data, a.checksum)
    requires k <= |data| && !Download.Matches(cfg.md5, data[..k], a.checksum)
    ensures Reaches(cfg, Carefully(Apply(cfg, s, a)), s') && |s'.entries| == |s.entries| + 1
    ensures IsMapped(s', |s.entries|) && Betrays(cfg, s', |s.entries|)
  {
    ColliderIsCondemned(cfg, s, a, e);
    CollisionFiles(cfg, s, a, e);
    KeepsMap(cfg, s, a);
    KeepsLocks(cfg, s, a);
    var u :| u in s.threads && Queues(s, u, e);
    s' := AfterLateCollision(cfg, Apply(cfg, s, a), u, e, a.t, |s.entries|, data, k);
  }

  lemma AfterLateCollision(cfg: Config, s: State, u: nat, e: nat, t: nat, f: nat, data: Bytes, k: nat)
    returns (s': State)
    requires cfg.honour && Consistent(cfg, s) && e < |s.entries| && |cfg.loaded| <= f < |s.entries| && e != f
    requires Queues(s, u, e) && At(s, t) && s.threads[t] == Waiting(f) && IsMapped(s, f)
    requires !s.entries[e].completed && !s.entries[f].completed && s.entries[f].cut.None?
    requires s.entries[e].location == s.entries[f].location && s.entries[e].checksum == s.entries[f].checksum
    requires data != [] && Download.Matches(cfg.md5, data, s.entries[f].checksum)
    requires k <= |data| && !Download.Matches(cfg.md5, data[..k], s.entries[f].checksum)
    ensures Reaches(cfg, Carefully(s), s') && |s'.entries| == |s.entries| && IsMapped(s', f) && Betrays(cfg, s', f)
  {
    var s0 := Carefully(s);
    Stay(cfg, s0);
    var s1 := GetsPoised(cfg, s0, s, u, e, t, f);
    assert !s1.entries[f].destroyed && OwnerOk(cfg, s1, e);
    var s2 := PublishesFirst(cfg, s0, s1, u, e, t, f, data);
    s' := RenamesOver(cfg, s0, s2, u, e, f, data, k);
  }

  // ----- When a request is safe

  lemma BetrayalShows(cfg: Config, s: State, f: nat)
    requires Betrays(cfg, s, f) && |s.entries| == f + 1
    ensures !Serving(cfg, s)
  {
    assert IsServed(cfg, s, f);
  }

  /** When a request that creates an entry is safe. With the status honoured, with or without removal, in
      any state of a disciplined run of plain requests: every disciplined continuation serves what it has
      published exactly when no entry contends for the location the request generates, which can be seen
      before the request (its checksum being that of some content, though not of all its beginnings). */
  lemma CreationSafeIff(cfg: Config, ss: seq<State>, acts: seq<Action>, i: nat, a: Action, data: Bytes, k: nat)
    requires DisciplinedRun(cfg, ss, acts) && PlainRun(cfg, ss, acts) && Initial(cfg, ss[0]) && i < |ss|
    requires cfg.honour
    requires Enabled(cfg, ss[i], a) && a.Lookup? && Creates(ss[i], a.name, a.checksum)
    requires !HasUnderscore(a.checksum) && data != [] && Download.Matches(cfg.md5, data, a.checksum)
    requires k <= |data| && !Download.Matches(cfg.md5, data[..k], a.checksum)
    ensures LocationFree(cfg, ss[i], a.name, a.checksum, a.now)
       <==> forall s' | Reaches(cfg, Carefully(Apply(cfg, ss[i], a)), s') :: Serving(cfg, s')
  {
    RunInv(cfg, ss, acts, i);
    RunNames(cfg, ss, acts, i);
    SafeIffFree(cfg, ss[i], a, data, k);
  }

  lemma SafeIffFree(cfg: Config, s: State, a: Action, data: Bytes, k: nat)
    requires Inv(cfg, s) && NameInv(cfg, s) && cfg.honour
    requires Enabled(cfg, s, a) && a.Lookup? && Creates(s, a.name, a.checksum)
    requires !HasUnderscore(a.checksum) && data != [] && Download.Matches(cfg.md5, data, a.checksum)
    requires k <= |data| && !Download.Matches(cfg.md5, data[..k], a.checksum)
    ensures LocationFree(cfg, s, a.name, a.checksum, a.now)
       <==> forall s' | Reaches(cfg, Carefully(Apply(cfg, s, a)), s') :: Serving(cfg, s')
  {
    if LocationFree(cfg, s, a.name, a.checksum, a.now) {
      forall s' | Reaches(cfg, Carefully(Apply(cfg, s, a)), s')
        ensures Serving(cfg, s')
      {
        DisciplinedIsSafe(cfg, s, a, s');
      }
    } else {
      var e: nat :| e < |s.entries| && Contends(cfg, s, e)
        && s.entries[e].location == Location(cfg.dir, Jar(a.name, a.checksum, a.now));
      var s';
      if cfg.reap {
        s' := CollisionLosesFile(cfg, s, a, e, data);
      } else {
        s' := CollisionSpoilsFile(cfg, s, a, e, data, k);
      }
      BetrayalShows(cfg, s', |s.entries|);
    }
  }

  // ----- Opening a temporary path

  /** What is left of `data` once the stream has written the rest of what it was sent, and `more`. */
  function Overwritten(data: Bytes, pc: Pc, more: Bytes): Bytes
    requires HasStream(pc) && pc.flushed <= |pc.sent|
  {
    WriteAt(data, pc.flushed, (pc.sent + more)[pc.flushed..])
  }

  /** Thread `u` streams behind the temporary path thread `t` is about to open. */
  ghost predicate Shares(cfg: Config, s: State, t: nat, u: nat) {
    && Wf(s) && At(s, t) && s.threads[t].Locked? && !s.entries[s.threads[t].e].downloaded
    && At(s, u) && OnTmp(s.threads[u])
    && TmpOf(cfg, s.entries[s.threads[u].e]) == TmpOf(cfg, s.entries[s.threads[t].e])
  }

  /** The other stream writes on. */
  lemma WritesOn(cfg: Config, s0: Origin, s: State, u: nat, pc: Pc, more: Bytes) returns (s': State)
    requires Reaches(cfg, s0, s) && Wf(s) && At(s, u) && s.threads[u] == pc && OnTmp(pc)
    requires pc.Closing? ==> more == []
    ensures Reaches(cfg, s0, s') && s'.entries == s.entries && s'.dir == s.dir && s'.emap == s.emap
    ensures s'.inodes == s.inodes[pc.ino := Overwritten(s.inodes[pc.ino], pc, more)]
  {
    var s1 := s;
    if more != [] {
      ByDeliver(cfg, s0, s, u, pc, more);
      s1 := SetPc(s, u, Sent(pc, more));
    }
    assert pc.sent + [] == pc.sent;
    var sent := pc.sent + more;
    assert s1.threads[u].sent == sent && s1.threads[u].flushed == pc.flushed;
    ByFlush(cfg, s0, s1, u, |sent|);
    assert sent[pc.flushed..|sent|] == sent[pc.flushed..];
    s' := DoFlush(s1, u, |sent|);
  }

  /** The opener's download, and then the other stream's writes to the same file. */
  lemma Overwrites(cfg: Config, s: State, t: nat, u: nat, data: Bytes, more: Bytes) returns (s': State)
    requires Shares(cfg, s, t, u) && s.threads[u].ino == TmpIno(cfg, s, s.threads[t].e)
    requires data != [] && Download.Matches(cfg.md5, data, s.entries[s.threads[t].e].checksum)
    requires s.threads[u].Closing? ==> more == []
    ensures Reaches(cfg, Carefully(Apply(cfg, s, Open(t, true))), s')
    ensures var e := s.threads[t].e; var s2 := Downloaded(cfg, s, t, e, data, s.entries[e].cut);
      && s'.emap == s.emap && s'.entries == s2.entries && s'.dir == s2.dir
      && s'.inodes == s2.inodes[TmpIno(cfg, s, e) := Overwritten(data, s.threads[u], more)]
  {
    var e := s.threads[t].e;
    var s0 := Carefully(Apply(cfg, s, Open(t, true)));
    OpenedState(cfg, s, t, e);
    KeepsWf(cfg, s, Open(t, true));
    Stay(cfg, s0);
    assert Download.Concat([data]) == data && data[..|data|] == data;
    Downloads(cfg, s0, s, t, e, [data], |data|);
    s' := WritesOn(cfg, s0, Downloaded(cfg, s, t, e, data, s.entries[e].cut), u, s.threads[u], more);
  }

  /** The contents for which the other stream's writes matter: the opener's bytes match their checksum, and
      would not once the other stream has written on. */
  predicate Spoils(cfg: Config, s: State, t: nat, u: nat, data: Bytes, more: Bytes)
    requires Shares(cfg, s, t, u)
  {
    var pc, checksum := s.threads[u], s.entries[s.threads[t].e].checksum;
    && data != [] && Download.Matches(cfg.md5, data, checksum) && (pc.Closing? ==> more == [])
    && !Download.Matches(cfg.md5, Overwritten(data, pc, more), checksum)
  }

  /** Where a temporary path is shared. In any state the invariant holds in, another thread streaming
      behind the path: for such contents a continuation, disciplined in every further step, ends with the
      opener's entry available, still mapped if it was, and its file damaged. */
  lemma SharedOpenDamages(cfg: Config, s: State, t: nat, u: nat, data: Bytes, more: Bytes) returns (s': State)
    requires Inv(cfg, s) && Shares(cfg, s, t, u) && Spoils(cfg, s, t, u, data, more)
    ensures Reaches(cfg, Carefully(Apply(cfg, s, Open(t, true))), s')
    ensures var e := s.threads[t].e;
      Betrays(cfg, s', e) && Owner(cfg, s', e) && (IsMapped(s, e) ==> IsMapped(s', e))
  {
    assert StreamOk(cfg, s, s.threads[u]);
    s' := Overwrites(cfg, s, t, u, data, more);
    DamagedFile(cfg, s, t, data, s');
    DownloaderOwns(cfg, s, t);
  }

  lemma DamagedFile(cfg: Config, s: State, t: nat, data: Bytes, s': State)
    requires MapInv(s) && LockInv(cfg, s) && DiskInv(cfg, s)
    requires At(s, t) && s.threads[t].Locked? && !s.entries[s.threads[t].e].downloaded
    requires var e := s.threads[t].e; var s2 := Downloaded(cfg, s, t, e, data, s.entries[e].cut);
      && s'.entries == s2.entries && s'.dir == s2.dir && |s'.inodes| == |s2.inodes|
      && TmpIno(cfg, s, e) < |s'.inodes|
      && !Download.Matches(cfg.md5, s'.inodes[TmpIno(cfg, s, e)], s.entries[e].checksum)
    ensures Betrays(cfg, s', s.threads[t].e)
  {
    var e := s.threads[t].e;
    assert OwnerOk(cfg, s, e) && FileOk(cfg, s, e);
  }

  /** A thread about to download has its location to itself. */
  lemma DownloaderOwns(cfg: Config, s: State, t: nat)
    requires MapInv(s) && LockInv(cfg, s) && YieldInv(cfg, s)
    requires At(s, t) && s.threads[t].Locked? && !s.entries[s.threads[t].e].downloaded
    ensures Owner(cfg, s, s.threads[t].e)
  {
    assert OwnerOk(cfg, s, s.threads[t].e) && Queues(s, t, s.threads[t].e);
    MappedOwns(cfg, s, s.threads[t].e);
  }

  /** When an `fopen` of a temporary path is safe. With the status honoured, in any state of a disciplined
      run: every disciplined continuation serves what it has published exactly when no other thread may
      still write behind the path (every such thread's writes mattering for some contents). */
  lemma OpenSafeIff(cfg: Config, ss: seq<State>, acts: seq<Action>, i: nat, t: nat)
    requires DisciplinedRun(cfg, ss, acts) && Initial(cfg, ss[0]) && i < |ss| && cfg.honour
    requires Enabled(cfg, ss[i], Open(t, true))
    requires forall u | Shares(cfg, ss[i], t, u) :: exists data, more :: Spoils(cfg, ss[i], t, u, data, more)
    ensures TmpUnused(cfg, ss[i], TmpOf(cfg, ss[i].entries[ss[i].threads[t].e]))
       <==> forall s' | Reaches(cfg, Carefully(Apply(cfg, ss[i], Open(t, true))), s') :: Serving(cfg, s')
  {
    RunInv(cfg, ss, acts, i);
    SafeIffUnused(cfg, ss[i], t);
  }

  lemma SafeIffUnused(cfg: Config, s: State, t: nat)
    requires Inv(cfg, s) && cfg.honour && Enabled(cfg, s, Open(t, true))
    requires forall u | Shares(cfg, s, t, u) :: exists data, more :: Spoils(cfg, s, t, u, data, more)
    ensures TmpUnused(cfg, s, TmpOf(cfg, s.entries[s.threads[t].e]))
       <==> forall s' | Reaches(cfg, Carefully(Apply(cfg, s, Open(t, true))), s') :: Serving(cfg, s')
  {
    if TmpUnused(cfg, s, TmpOf(cfg, s.entries[s.threads[t].e])) {
      forall s' | Reaches(cfg, Carefully(Apply(cfg, s, Open(t, true))), s')
        ensures Serving(cfg, s')
      {
        DisciplinedIsSafe(cfg, s, Open(t, true), s');
      }
    } else {
      var u :| u in s.threads && OnTmp(s.threads[u])
        && TmpOf(cfg, s.entries[s.threads[u].e]) == TmpOf(cfg, s.entries[s.threads[t].e]);
      assert Shares(cfg, s, t, u);
      var data, more :| Spoils(cfg, s, t, u, data, more);
      var s' := SharedOpenDamages(cfg, s, t, u, data, more);
      assert IsServed(cfg, s', s.threads[t].e);
    }
  }
}
