/** Workers and the resources of the states they are spawned for, over every interleaving of transitions. */
module TransitionWorkers {
  import opened Bytes
  import opened Transition

  /** A session with its workers. A worker, named by its token, first takes the resources of whatever state is current,
      if that is of its kind and has not lost them; finding none, it returns. `holder` tells which worker took the
      resources of a state, named by its token; `tried` which workers have tried; `seeders` which tokens are of seeding
      states; and `cut` which tokens were cancelled by a call's cancel section or by the worker itself. */
  datatype Crew = Crew(sys: Sys, seeders: set<nat>, holder: map<nat, nat>, tried: set<nat>, cut: set<nat>)

  datatype CrewAction = Call(act: Action) | TakeResources(worker: nat)

  function SwapHeld(pc: Pc): set<nat> {
    if pc.Swap? then TokenOf(pc.next) else {}
  }

  /** Tokens an action cancels by a cancel section or a worker's end. */
  function CutBy(s: Sys, act: Action): set<nat> {
    match act
    case Start(_) => {}
    case Move(i, _) => if i < |s.procs| && s.procs[i].CancelSection? then TokenOf(s.state) else {}
    case WorkerStops(k) => if k < |s.workers| then {s.workers[k]} else {}
  }

  function SeedsBy(s: Sys, act: Action): set<nat> {
    if act.Move? && act.proc < |s.procs| && s.procs[act.proc].Swap? && s.procs[act.proc].next.Seeding?
    then TokenOf(s.procs[act.proc].next) else {}
  }

  function NextCrew(c: Crew, a: CrewAction): Crew {
    match a
    case Call(act) =>
      Crew(Next(c.sys, act), c.seeders + SeedsBy(c.sys, act), c.holder, c.tried, c.cut + CutBy(c.sys, act))
    case TakeResources(k) =>
      if k >= |c.sys.workers| || c.sys.workers[k] in c.tried then c else Tries(c, c.sys.workers[k])
  }

  /** `take_downloading` or `take_seeding`, in the worker's first lock section. */
  function Tries(c: Crew, w: nat): Crew {
    var d := c.(tried := c.tried + {w});
    match c.sys.state
    case Downloading(_, t) => if w in c.seeders || t in c.holder then d else d.(holder := c.holder[t := w])
    case Seeding(_, t) => if w !in c.seeders || t in c.holder then d else d.(holder := c.holder[t := w])
    case _ => d
  }

  function AfterCrew(c: Crew, run: seq<CrewAction>): Crew
    decreases |run|
  {
    if run == [] then c else AfterCrew(NextCrew(c, run[0]), run[1..])
  }

  const NOBODY: Crew := Crew(FRESH, {}, map[], {}, {})

  /** A worker at work: its token is not cancelled and it has taken some state's resources. */
  ghost predicate Live(c: Crew, w: nat) {
    w in c.sys.workers && w !in c.sys.cancelled && exists t :: t in c.holder && c.holder[t] == w
  }

  /** Everything cancelled, seeding or current is an old token, and none that a call has yet to swap in. */
  ghost predicate TokensOld(s: Sys, seeders: set<nat>) {
    && (forall x :: x in s.cancelled || x in seeders || x in TokenOf(s.state) ==> x < s.nextToken)
    && (forall i :: 0 <= i < |s.procs| ==> SwapFresh(s, seeders, s.procs[i]))
  }

  ghost predicate SwapFresh(s: Sys, seeders: set<nat>, pc: Pc) {
    forall x :: x in SwapHeld(pc) ==> x !in s.cancelled && x !in seeders && x !in TokenOf(s.state)
  }

  /** The current state's token is in a worker's hands, or about to be. */
  ghost predicate Handed(s: Sys) {
    forall t :: t in TokenOf(s.state) ==> t in s.workers || exists i :: 0 <= i < |s.procs| && s.procs[i] == Spawn(t)
  }

  ghost predicate KindOk(s: Sys, seeders: set<nat>) {
    forall t :: t in TokenOf(s.state) ==> (t in seeders <==> s.state.Seeding?)
  }

  /** A current token that is cancelled was cut. */
  ghost predicate CutOk(s: Sys, cut: set<nat>) {
    cut <= s.cancelled && forall t :: t in TokenOf(s.state) && t in s.cancelled ==> t in cut
  }

  /** Who takes another's resources is cancelled already; the current state's own worker, once it has tried, has found
      them or found them taken. */
  ghost predicate HoldersOk(c: Crew) {
    && (forall w :: w in c.tried ==> w in c.sys.workers)
    && (forall t :: t in c.holder ==> c.holder[t] in c.tried && (c.holder[t] != t ==> c.holder[t] in c.sys.cancelled))
    && (forall t :: t in TokenOf(c.sys.state) && t in c.tried ==> t in c.holder)
  }

  ghost predicate CrewInv(c: Crew) {
    && Inv(c.sys) && TokensOld(c.sys, c.seeders) && Handed(c.sys) && KindOk(c.sys, c.seeders) && CutOk(c.sys, c.cut)
    && HoldersOk(c)
  }

  lemma {:induction false} MoveOld(s: Sys, seeders: set<nat>, i: nat, io: bool)
    requires TokensNew(s) && TokensOld(s, seeders) && i < |s.procs|
    ensures TokensOld(Moved(s, i, io), seeders + SeedsBy(s, Move(i, io)))
  {
    var t, more := Moved(s, i, io), seeders + SeedsBy(s, Move(i, io));
    assert SwapFresh(s, seeders, s.procs[i]) && HeldNew(s, s.procs[i]);
    assert SwapHeld(s.procs[i]) <= Held(s.procs[i]);
    forall j | 0 <= j < |t.procs| ensures SwapFresh(t, more, t.procs[j]) {
      assert SwapFresh(s, seeders, s.procs[j]) && HeldNew(s, s.procs[j]);
      assert SwapHeld(s.procs[j]) <= Held(s.procs[j]);
      if j != i { assert t.procs[j] == s.procs[j] && Held(s.procs[i]) !! Held(s.procs[j]); }
    }
  }

  lemma {:induction false} MoveHanded(s: Sys, i: nat, io: bool)
    requires Handed(s) && i < |s.procs|
    ensures Handed(Moved(s, i, io))
  {
    var u := Moved(s, i, io);
    forall t | t in TokenOf(u.state)
      ensures t in u.workers || exists j :: 0 <= j < |u.procs| && u.procs[j] == Spawn(t)
    {
      if t in TokenOf(s.state) && t !in s.workers {
        var j :| 0 <= j < |s.procs| && s.procs[j] == Spawn(t);
        if j != i { assert u.procs[j] == Spawn(t); }
      } else if t !in TokenOf(s.state) {
        assert u.procs[i] == Spawn(t);
      }
    }
  }

  lemma {:induction false} MoveKindAndCut(s: Sys, seeders: set<nat>, cut: set<nat>, i: nat, io: bool)
    requires TokensOld(s, seeders) && KindOk(s, seeders) && CutOk(s, cut) && i < |s.procs|
    ensures KindOk(Moved(s, i, io), seeders + SeedsBy(s, Move(i, io)))
    ensures CutOk(Moved(s, i, io), cut + CutBy(s, Move(i, io)))
  {
    assert SwapFresh(s, seeders, s.procs[i]);
  }

  lemma {:induction false} MoveHolders(c: Crew, i: nat, io: bool)
    requires HoldersOk(c) && Inv(c.sys) && i < |c.sys.procs|
    ensures HoldersOk(NextCrew(c, Call(Move(i, io))))
  {
    var s, u := c.sys, Moved(c.sys, i, io);
    MoveKeeps(s, i, io);
    assert HeldNew(s, s.procs[i]);
    assert s.cancelled <= u.cancelled && s.workers <= u.workers;
    assert forall w :: w in s.workers ==> w in u.workers;
    assert forall t :: t in TokenOf(u.state) ==> t in TokenOf(s.state) || t in Held(s.procs[i]);
  }

  lemma {:induction false} StartKeepsCrew(c: Crew, to: Transition)
    requires CrewInv(c)
    ensures CrewInv(NextCrew(c, Call(Start(to))))
  {
    var s, u := c.sys, Next(c.sys, Start(to));
    StepKeeps(s, Start(to));
    forall j | 0 <= j < |u.procs| ensures SwapFresh(u, c.seeders, u.procs[j]) {
      if j < |s.procs| { assert SwapFresh(s, c.seeders, s.procs[j]); }
    }
    forall t | t in TokenOf(u.state)
      ensures t in u.workers || exists j :: 0 <= j < |u.procs| && u.procs[j] == Spawn(t)
    {
      if t !in s.workers {
        var j :| 0 <= j < |s.procs| && s.procs[j] == Spawn(t);
        assert u.procs[j] == Spawn(t);
      }
    }
  }

  lemma {:induction false} StopKeepsCrew(c: Crew, k: nat)
    requires CrewInv(c)
    ensures CrewInv(NextCrew(c, Call(WorkerStops(k))))
  {
    var s, u := c.sys, Next(c.sys, WorkerStops(k));
    StepKeeps(s, WorkerStops(k));
    forall j | 0 <= j < |u.procs| ensures SwapFresh(u, c.seeders, u.procs[j]) {
      assert SwapFresh(s, c.seeders, s.procs[j]) && HeldNew(s, s.procs[j]);
      assert SwapHeld(s.procs[j]) <= Held(s.procs[j]);
    }
  }

  lemma {:induction false} TryKeepsCrew(c: Crew, k: nat)
    requires CrewInv(c)
    ensures CrewInv(NextCrew(c, TakeResources(k)))
  {
    if k < |c.sys.workers| { assert Current(c.sys, c.sys.workers[k]); }
  }

  lemma {:induction false} CrewStepKeeps(c: Crew, a: CrewAction)
    requires CrewInv(c)
    ensures CrewInv(NextCrew(c, a))
  {
    match a
    case TakeResources(k) => TryKeepsCrew(c, k);
    case Call(Start(to)) => StartKeepsCrew(c, to);
    case Call(WorkerStops(k)) => StopKeepsCrew(c, k);
    case Call(Move(i, io)) =>
      if i < |c.sys.procs| {
        MoveKeeps(c.sys, i, io);
        MoveOld(c.sys, c.seeders, i, io);
        MoveHanded(c.sys, i, io);
        MoveKindAndCut(c.sys, c.seeders, c.cut, i, io);
        MoveHolders(c, i, io);
      }
  }

  lemma {:induction false} CrewRunKeeps(c: Crew, run: seq<CrewAction>)
    requires CrewInv(c)
    ensures CrewInv(AfterCrew(c, run))
    decreases |run|
  {
    if run != [] {
      CrewStepKeeps(c, run[0]);
      CrewRunKeeps(NextCrew(c, run[0]), run[1..]);
    }
  }

  /** Resources taken are those of a current or cancelled state, by a worker of its kind. */
  ghost predicate KindsMatch(c: Crew) {
    forall t :: t in c.holder ==>
      Current(c.sys, t) && c.holder[t] in c.sys.workers && (t in c.seeders <==> c.holder[t] in c.seeders)
  }

  ghost predicate HoldersStay(c: Crew, d: Crew) {
    forall t :: t in c.holder ==> t in d.holder && d.holder[t] == c.holder[t]
  }

  lemma {:induction false} MoveKinds(c: Crew, i: nat, io: bool)
    requires CrewInv(c) && KindsMatch(c) && i < |c.sys.procs|
    ensures KindsMatch(NextCrew(c, Call(Move(i, io))))
  {
    var s, u := c.sys, Moved(c.sys, i, io);
    assert SwapFresh(s, c.seeders, s.procs[i]) && HeldNew(s, s.procs[i]);
    assert SwapHeld(s.procs[i]) <= Held(s.procs[i]);
    forall t | t in c.holder ensures Current(u, t) && c.holder[t] in u.workers {
      assert s.workers <= u.workers;
    }
  }

  lemma {:induction false} StepKinds(c: Crew, a: CrewAction)
    requires CrewInv(c) && KindsMatch(c)
    ensures KindsMatch(NextCrew(c, a)) && HoldersStay(c, NextCrew(c, a))
  {
    match a
    case Call(Move(i, io)) => if i < |c.sys.procs| { MoveKinds(c, i, io); }
    case _ =>
  }

  lemma {:induction false} RunKinds(c: Crew, run: seq<CrewAction>)
    requires CrewInv(c) && KindsMatch(c)
    ensures KindsMatch(AfterCrew(c, run)) && HoldersStay(c, AfterCrew(c, run))
    decreases |run|
  {
    if run != [] {
      CrewStepKeeps(c, run[0]);
      StepKinds(c, run[0]);
      RunKinds(NextCrew(c, run[0]), run[1..]);
    }
  }

  /** Over every run: a state's resources are taken once, never to change hands, and by a worker of its kind, a seeder
      those of a seeding state and a downloader those of a downloading one. */
  lemma {:induction false} TakenOnceByKind(run: seq<CrewAction>, more: seq<CrewAction>, t: nat)
    requires t in AfterCrew(NOBODY, run).holder
    ensures var c, d := AfterCrew(NOBODY, run), AfterCrew(AfterCrew(NOBODY, run), more);
            t in d.holder && d.holder[t] == c.holder[t] && (t in d.seeders <==> d.holder[t] in d.seeders)
  {
    CrewRunKeeps(NOBODY, run);
    RunKinds(NOBODY, run);
    RunKinds(AfterCrew(NOBODY, run), more);
  }

  /** No call is under way and every worker has had its try. */
  ghost predicate Settled(c: Crew) {
    && (forall i :: 0 <= i < |c.sys.procs| ==> c.sys.procs[i] == Done || c.sys.procs[i] == Aborted)
    && (forall w :: w in c.sys.workers ==> w in c.tried)
  }

  /** Another worker took the resources of the state with token `t`. */
  predicate Stolen(c: Crew, t: nat) {
    t in c.holder && c.holder[t] != t
  }

  lemma {:induction false} OnlyOwnWorker(c: Crew, t: nat, w: nat)
    requires CrewInv(c) && TokenOf(c.sys.state) == {t} && Live(c, w)
    ensures w == t && t in c.holder && c.holder[t] == t
  {
    var k :| 0 <= k < |c.sys.workers| && c.sys.workers[k] == w;
    assert Current(c.sys, c.sys.workers[k]);
  }

  /** Exactly when a session that has come to rest in a running state has a worker at work: the token of the state was
      not cut, by a call that then swapped nothing in or by its worker, and no other worker took its resources. */
  lemma {:induction false} LiveWorkerIff(run: seq<CrewAction>, t: nat)
    requires var c := AfterCrew(NOBODY, run); Settled(c) && TokenOf(c.sys.state) == {t}
    ensures var c := AfterCrew(NOBODY, run); (exists w :: Live(c, w)) <==> t !in c.cut && !Stolen(c, t)
  {
    CrewRunKeeps(NOBODY, run);
    var c := AfterCrew(NOBODY, run);
    assert t in c.sys.workers;
    assert t in c.holder;
    if t !in c.cut && !Stolen(c, t) {
      assert Live(c, t);
    }
    if w :| Live(c, w) {
      OnlyOwnWorker(c, t, w);
    }
  }

  ghost predicate Reachable(c: Crew) {
    exists run :: AfterCrew(NOBODY, run) == c
  }

  lemma {:induction false} RunSnoc(c: Crew, run: seq<CrewAction>, a: CrewAction)
    ensures AfterCrew(c, run + [a]) == NextCrew(AfterCrew(c, run), a)
    decreases |run|
  {
    if run == [] {
      assert run + [a] == [a] && [a][1..] == [];
      assert AfterCrew(NextCrew(c, a), []) == NextCrew(c, a);
    } else {
      RunSnoc(NextCrew(c, run[0]), run[1..], a);
      assert (run + [a])[1..] == run[1..] + [a];
    }
  }

  /** One more action after a run. */
  lemma {:induction false} ThenReach(c: Crew, a: CrewAction, d: Crew)
    requires Reachable(c)
    requires var n := NextCrew(c, a);
             && n.sys.state == d.sys.state && n.sys.cancelled == d.sys.cancelled && n.sys.nextToken == d.sys.nextToken
             && n.sys.procs == d.sys.procs && n.sys.workers == d.sys.workers
             && n.seeders == d.seeders && n.holder == d.holder && n.tried == d.tried && n.cut == d.cut
    ensures Reachable(d)
  {
    var run :| AfterCrew(NOBODY, run) == c;
    RunSnoc(NOBODY, run, a);
    assert NextCrew(c, a) == d;
  }

  lemma {:induction false} PreparesDownload(dest: int)
    ensures Reachable(Crew(Sys(Idle(None), {}, 1, [Swap(Downloading(dest, 0))], []), {}, map[], {}, {}))
  {
    var d, go, last := Download(dest), Call(Move(0, true)), LastDownloading(dest);
    assert AfterCrew(NOBODY, []) == NOBODY;
    var c1 := Crew(Sys(Idle(None), {}, 0, [Check(d)], []), {}, map[], {}, {});
    var c2 := Crew(Sys(Idle(None), {}, 0, [CancelSection(d)], []), {}, map[], {}, {});
    var c3 := Crew(Sys(Idle(None), {}, 0, [Prepare(last)], []), {}, map[], {}, {});
    var c4 := Crew(Sys(Idle(None), {}, 1, [Swap(Downloading(dest, 0))], []), {}, map[], {}, {});
    ThenReach(NOBODY, Call(Start(d)), c1);
    ThenReach(c1, go, c2);
    ThenReach(c2, go, c3);
    ThenReach(c3, go, c4);
  }

  /** A download with its worker at work. */
  lemma {:induction false} Downloads(dest: int)
    ensures Reachable(Crew(Sys(Downloading(dest, 0), {}, 1, [Done], [0]), {}, map[0 := 0], {0}, {}))
  {
    PreparesDownload(dest);
    var s, go := Downloading(dest, 0), Call(Move(0, true));
    var c4 := Crew(Sys(Idle(None), {}, 1, [Swap(s)], []), {}, map[], {}, {});
    var c5 := Crew(Sys(s, {}, 1, [Spawn(0)], []), {}, map[], {}, {});
    var c6 := Crew(Sys(s, {}, 1, [Done], [0]), {}, map[], {}, {});
    ThenReach(c4, go, c5);
    ThenReach(c5, go, c6);
    ThenReach(c6, TakeResources(0), Crew(c6.sys, {}, map[0 := 0], {0}, {}));
  }

  /** The first case occurs: seeding is asked of a download and cannot be prepared. The session says it downloads, and
      nobody does. */
  lemma {:induction false} FailedSeedLeavesNobody(dest: int, path: Place) returns (c: Crew)
    ensures Reachable(c) && Settled(c) && c.sys.state == Downloading(dest, 0) && 0 in c.cut
    ensures !exists w :: Live(c, w)
  {
    Downloads(dest);
    var e := Seed(path);
    var s := Downloading(dest, 0);
    var h := map[0 := 0];
    var c0 := Crew(Sys(s, {}, 1, [Done], [0]), {}, h, {0}, {});
    var c1 := Crew(Sys(s, {}, 1, [Done, Check(e)], [0]), {}, h, {0}, {});
    var c2 := Crew(Sys(s, {}, 1, [Done, CancelSection(e)], [0]), {}, h, {0}, {});
    var c3 := Crew(Sys(s, {0}, 1, [Done, Prepare(LastSeeding(path))], [0]), {}, h, {0}, {0});
    c := Crew(Sys(s, {0}, 2, [Done, Done], [0]), {}, h, {0}, {0});
    ThenReach(c0, Call(Start(e)), c1);
    ThenReach(c1, Call(Move(1, true)), c2);
    ThenReach(c2, Call(Move(1, true)), c3);
    ThenReach(c3, Call(Move(1, false)), c);
  }

  lemma {:induction false} CutsDownload(dest: int)
    ensures Reachable(Crew(Sys(Downloading(dest, 0), {0}, 1, [Done, ReadForIdle], [0]), {}, map[0 := 0], {0}, {0}))
  {
    Downloads(dest);
    var s, go, h := Downloading(dest, 0), Call(Move(1, true)), map[0 := 0];
    var c0 := Crew(Sys(s, {}, 1, [Done], [0]), {}, h, {0}, {});
    var c1 := Crew(Sys(s, {}, 1, [Done, Check(Pause)], [0]), {}, h, {0}, {});
    var c2 := Crew(Sys(s, {}, 1, [Done, CancelSection(Pause)], [0]), {}, h, {0}, {});
    var c3 := Crew(Sys(s, {0}, 1, [Done, ReadForIdle], [0]), {}, h, {0}, {0});
    ThenReach(c0, Call(Start(Pause)), c1);
    ThenReach(c1, go, c2);
    ThenReach(c2, go, c3);
  }

  /** A download paused, its worker gone. */
  lemma {:induction false} Pauses(dest: int)
    ensures var l := LastDownloading(dest);
            Reachable(Crew(Sys(Idle(Some(l)), {0}, 1, [Done, Done], [0]), {}, map[0 := 0], {0}, {0}))
  {
    CutsDownload(dest);
    var s, idle, go := Downloading(dest, 0), Idle(Some(LastDownloading(dest))), Call(Move(1, true));
    var h := map[0 := 0];
    var c3 := Crew(Sys(s, {0}, 1, [Done, ReadForIdle], [0]), {}, h, {0}, {0});
    var c4 := Crew(Sys(s, {0}, 1, [Done, Swap(idle)], [0]), {}, h, {0}, {0});
    var c5 := Crew(Sys(idle, {0}, 1, [Done, Done], [0]), {}, h, {0}, {0});
    ThenReach(c3, go, c4);
    ThenReach(c4, go, c5);
  }

  /** Two calls of Resume have both read where to resume from. */
  lemma {:induction false} TwoResume(dest: int)
    ensures var l := LastDownloading(dest);
            Reachable(Crew(Sys(Idle(Some(l)), {0}, 1, [Done, Done, Prepare(l), Prepare(l)], [0]), {}, map[0 := 0],
                           {0}, {0}))
  {
    Pauses(dest);
    var l, h := LastDownloading(dest), map[0 := 0];
    var s, first, second := Idle(Some(l)), Call(Move(2, true)), Call(Move(3, true));
    var c0 := Crew(Sys(s, {0}, 1, [Done, Done], [0]), {}, h, {0}, {0});
    var c1 := Crew(Sys(s, {0}, 1, [Done, Done, Check(Resume)], [0]), {}, h, {0}, {0});
    var c2 := Crew(Sys(s, {0}, 1, [Done, Done, Check(Resume), Check(Resume)], [0]), {}, h, {0}, {0});
    var c3 := Crew(Sys(s, {0}, 1, [Done, Done, CancelSection(Resume), Check(Resume)], [0]), {}, h, {0}, {0});
    var c4 := Crew(Sys(s, {0}, 1, [Done, Done, ReadLast, Check(Resume)], [0]), {}, h, {0}, {0});
    var c5 := Crew(Sys(s, {0}, 1, [Done, Done, Prepare(l), Check(Resume)], [0]), {}, h, {0}, {0});
    var c6 := Crew(Sys(s, {0}, 1, [Done, Done, Prepare(l), CancelSection(Resume)], [0]), {}, h, {0}, {0});
    var c7 := Crew(Sys(s, {0}, 1, [Done, Done, Prepare(l), ReadLast], [0]), {}, h, {0}, {0});
    var c8 := Crew(Sys(s, {0}, 1, [Done, Done, Prepare(l), Prepare(l)], [0]), {}, h, {0}, {0});
    ThenReach(c0, Call(Start(Resume)), c1);
    ThenReach(c1, Call(Start(Resume)), c2);
    ThenReach(c2, first, c3);
    ThenReach(c3, first, c4);
    ThenReach(c4, first, c5);
    ThenReach(c5, second, c6);
    ThenReach(c6, second, c7);
    ThenReach(c7, second, c8);
  }

  /** The first of them has swapped in its state and spawned its worker, which has not yet tried. */
  lemma {:induction false} FirstResumes(dest: int)
    ensures var l := LastDownloading(dest);
            Reachable(Crew(Sys(Downloading(dest, 1), {0}, 2, [Done, Done, Done, Prepare(l)], [0, 1]), {}, map[0 := 0],
                           {0}, {0}))
  {
    TwoResume(dest);
    var l, h := LastDownloading(dest), map[0 := 0];
    var s, s1, first := Idle(Some(l)), Downloading(dest, 1), Call(Move(2, true));
    var c0 := Crew(Sys(s, {0}, 1, [Done, Done, Prepare(l), Prepare(l)], [0]), {}, h, {0}, {0});
    var c1 := Crew(Sys(s, {0}, 2, [Done, Done, Swap(s1), Prepare(l)], [0]), {}, h, {0}, {0});
    var c2 := Crew(Sys(s1, {0}, 2, [Done, Done, Spawn(1), Prepare(l)], [0]), {}, h, {0}, {0});
    var c3 := Crew(Sys(s1, {0}, 2, [Done, Done, Done, Prepare(l)], [0, 1]), {}, h, {0}, {0});
    ThenReach(c0, first, c1);
    ThenReach(c1, first, c2);
    ThenReach(c2, first, c3);
  }

  /** And the second, which drops the first's state. */
  lemma {:induction false} SecondResumes(dest: int)
    ensures Reachable(Crew(Sys(Downloading(dest, 2), {0, 1}, 3, [Done, Done, Done, Done], [0, 1, 2]), {}, map[0 := 0],
                           {0}, {0}))
  {
    FirstResumes(dest);
    var l, h := LastDownloading(dest), map[0 := 0];
    var s1, s2, second := Downloading(dest, 1), Downloading(dest, 2), Call(Move(3, true));
    var c3 := Crew(Sys(s1, {0}, 2, [Done, Done, Done, Prepare(l)], [0, 1]), {}, h, {0}, {0});
    var c4 := Crew(Sys(s1, {0}, 3, [Done, Done, Done, Swap(s2)], [0, 1]), {}, h, {0}, {0});
    var c5 := Crew(Sys(s2, {0, 1}, 3, [Done, Done, Done, Spawn(2)], [0, 1]), {}, h, {0}, {0});
    var c6 := Crew(Sys(s2, {0, 1}, 3, [Done, Done, Done, Done], [0, 1, 2]), {}, h, {0}, {0});
    ThenReach(c3, second, c4);
    ThenReach(c4, second, c5);
    ThenReach(c5, second, c6);
  }

  /** The second case occurs: of two overlapping calls of Resume, the worker of the first takes the resources of the
      second's state and, its token being cancelled, leaves; the second's finds none. */
  lemma {:induction false} StolenLeavesNobody(dest: int) returns (c: Crew)
    ensures Reachable(c) && Settled(c) && c.sys.state == Downloading(dest, 2) && 2 !in c.cut && Stolen(c, 2)
    ensures !exists w :: Live(c, w)
  {
    SecondResumes(dest);
    var s := Sys(Downloading(dest, 2), {0, 1}, 3, [Done, Done, Done, Done], [0, 1, 2]);
    var c6 := Crew(s, {}, map[0 := 0], {0}, {0});
    var c7 := Crew(s, {}, map[0 := 0, 2 := 1], {0, 1}, {0});
    c := Crew(s, {}, map[0 := 0, 2 := 1], {0, 1, 2}, {0});
    ThenReach(c6, TakeResources(1), c7);
    ThenReach(c7, TakeResources(2), c);
  }
}
