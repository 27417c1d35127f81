/** Where calls lead: one call by itself, and, over every interleaving, where the states come from. */
module TransitionCalls {
  import opened Bytes
  import opened Transition

  function Moves(i: nat, n: nat, io: bool): seq<Action> {
    seq(n, _ => Move(i, io))
  }

  /** A call started and moved `n` times with no other move in between. */
  function Alone(s: Sys, to: Transition, n: nat, io: bool): Sys {
    Run(s, [Start(to)] + Moves(|s.procs|, n, io))
  }

  lemma {:induction false} OneMove(s: Sys, i: nat, n: nat, io: bool)
    requires i < |s.procs| && n > 0
    ensures Run(s, Moves(i, n, io)) == Run(Moved(s, i, io), Moves(i, n - 1, io))
  {
    assert Moves(i, n, io) == [Move(i, io)] + Moves(i, n - 1, io);
    RunStep(s, Move(i, io), Moves(i, n - 1, io), Run(Moved(s, i, io), Moves(i, n - 1, io)));
  }

  lemma {:induction false} DoneStays(s: Sys, i: nat, n: nat, io: bool)
    requires i < |s.procs| && s.procs[i] == Done
    ensures Run(s, Moves(i, n, io)) == s
  {
    if n > 0 {
      OneMove(s, i, n, io);
      DoneStays(s, i, n - 1, io);
    }
  }

  /** The system with a last call at `pc`. */
  function WithLast(s: Sys, pc: Pc): Sys {
    s.(procs := s.procs + [pc])
  }

  /** The last call moves on, `s` becoming `t` but for it. */
  lemma {:induction false} Onward(s: Sys, pc: Pc, t: Sys, next: Pc, n: nat, io: bool)
    requires n > 0 && t.procs == s.procs && Moved(WithLast(s, pc), |s.procs|, io).procs[|s.procs|] == next
    requires var m := Moved(WithLast(s, pc), |s.procs|, io);
             m.state == t.state && m.cancelled == t.cancelled && m.nextToken == t.nextToken && m.workers == t.workers
    ensures Run(WithLast(s, pc), Moves(|s.procs|, n, io)) == Run(WithLast(t, next), Moves(|s.procs|, n - 1, io))
  {
    OneMove(WithLast(s, pc), |s.procs|, n, io);
    assert Moved(WithLast(s, pc), |s.procs|, io).procs == t.procs + [next];
  }

  /** A call that prepares a running state: with its resources ready it swaps the state in and spawns the worker,
      otherwise it leaves the state as it is. */
  lemma {:induction false} Prepares(s: Sys, l: LastState, n: nat, io: bool)
    requires n >= 3 && !s.state.Cancelled?
    ensures var next := match l case LastDownloading(d) => Downloading(d, s.nextToken)
                                case LastSeeding(_) => Seeding(UploadDir, s.nextToken);
            Run(WithLast(s, Prepare(l)), Moves(|s.procs|, n, io)) ==
            if io then Sys(next, s.cancelled + TokenOf(s.state), s.nextToken + 1, s.procs + [Done],
                           s.workers + [s.nextToken])
            else s.(nextToken := s.nextToken + 1, procs := s.procs + [Done])
  {
    var token := s.nextToken;
    var t := s.(nextToken := token + 1);
    if io {
      var next := StateFor(l, token);
      var u := t.(state := next, cancelled := s.cancelled + TokenOf(s.state));
      var v := u.(workers := s.workers + [token]);
      Onward(s, Prepare(l), t, Swap(next), n, io);
      Onward(t, Swap(next), u, Spawn(token), n - 1, io);
      Onward(u, Spawn(token), v, Done, n - 2, io);
      DoneStays(WithLast(v, Done), |s.procs|, n - 3, io);
    } else {
      Onward(s, Prepare(l), t, Done, n, io);
      DoneStays(WithLast(t, Done), |s.procs|, n - 1, io);
    }
  }

  /** The first two lock sections of a call that is let through. */
  lemma {:induction false} Begins(s: Sys, to: Transition, n: nat, io: bool, t: Sys, next: Pc)
    requires n >= 2 && CanTransitionTo(s.state, to) && t == s.(cancelled := s.cancelled + TokenOf(s.state))
    requires next == match to
                     case Download(d) => Prepare(LastDownloading(d))
                     case Seed(p) => Prepare(LastSeeding(p))
                     case Pause => ReadForIdle
                     case Resume => ReadLast
                     case Cancel => ReadForCancel
    ensures Alone(s, to, n, io) == Run(WithLast(t, next), Moves(|s.procs|, n - 2, io))
  {
    Starts(s, to, n, io);
    Onward(s, Check(to), s, CancelSection(to), n, io);
    Onward(s, CancelSection(to), t, next, n - 1, io);
  }

  lemma {:induction false} Starts(s: Sys, to: Transition, n: nat, io: bool)
    ensures Alone(s, to, n, io) == Run(WithLast(s, Check(to)), Moves(|s.procs|, n, io))
  {
    RunStep(s, Start(to), Moves(|s.procs|, n, io), Run(WithLast(s, Check(to)), Moves(|s.procs|, n, io)));
  }

  /** Swapping in a state without a worker ends the call. */
  lemma {:induction false} SwapsLast(s: Sys, next: State, n: nat, io: bool)
    requires n >= 1 && !s.state.Cancelled? && (next.Idle? || next.Cancelled?)
    ensures Run(WithLast(s, Swap(next)), Moves(|s.procs|, n, io)) ==
            WithLast(s.(state := next, cancelled := s.cancelled + TokenOf(s.state)), Done)
  {
    var u := s.(state := next, cancelled := s.cancelled + TokenOf(s.state));
    Onward(s, Swap(next), u, Done, n, io);
    DoneStays(WithLast(u, Done), |s.procs|, n - 1, io);
  }

  /** What a call that runs a session leaves of `s`. */
  ghost predicate Runs(s: Sys, next: State, io: bool, u: Sys) {
    && u.procs == s.procs + [Done] && u.nextToken == s.nextToken + 1 && u.cancelled == s.cancelled + TokenOf(s.state)
    && (io ==> u.state == next && u.workers == s.workers + [s.nextToken])
    && (!io ==> u.state == s.state && u.workers == s.workers)
  }

  ghost predicate Stops(s: Sys, next: State, u: Sys) {
    u == Sys(next, s.cancelled + TokenOf(s.state), s.nextToken, s.procs + [Done], s.workers)
  }

  /** Every call by itself, from any state: exactly the nine pairs of a state and a call that are listed get through.
      A download goes to its destination; a seed, from wherever, to the directory of uploads; a pause remembers the
      kind and the path, and a resume goes back to them; whatever was running before is cancelled. A call that fails
      to prepare its resources leaves the state but cancels its token. Any other call changes nothing. */
  lemma {:induction false} CallAlone(s: Sys, to: Transition, n: nat, io: bool)
    requires n >= 6
    ensures var u := Alone(s, to, n, io);
            match (s.state, to)
            case (Idle(None), Download(d)) => Runs(s, Downloading(d, s.nextToken), io, u)
            case (Idle(None), Seed(_)) => Runs(s, Seeding(UploadDir, s.nextToken), io, u)
            case (Downloading(_, _), Seed(_)) => Runs(s, Seeding(UploadDir, s.nextToken), io, u)
            case (Idle(Some(LastDownloading(d))), Resume) => Runs(s, Downloading(d, s.nextToken), io, u)
            case (Idle(Some(LastSeeding(_))), Resume) => Runs(s, Seeding(UploadDir, s.nextToken), io, u)
            case (Downloading(d, _), Pause) => Stops(s, Idle(Some(LastDownloading(d))), u)
            case (Seeding(p, _), Pause) => Stops(s, Idle(Some(LastSeeding(p))), u)
            case (Downloading(_, _), Cancel) => Stops(s, Cancelled, u)
            case (Seeding(_, _), Cancel) => Stops(s, Cancelled, u)
            case (Idle(Some(_)), Cancel) => Stops(s, Cancelled, u)
            case _ => u == s.(procs := s.procs + [Done])
  {
    if CanTransitionTo(s.state, to) {
      GetsThrough(s, to, n, io);
    } else {
      Starts(s, to, n, io);
      Onward(s, Check(to), s, Done, n, io);
      DoneStays(WithLast(s, Done), |s.procs|, n - 1, io);
    }
  }

  lemma {:induction false} GetsThrough(s: Sys, to: Transition, n: nat, io: bool)
    requires n >= 6 && CanTransitionTo(s.state, to)
    ensures var u := Alone(s, to, n, io);
            match to
            case Download(d) => Runs(s, Downloading(d, s.nextToken), io, u)
            case Seed(_) => Runs(s, Seeding(UploadDir, s.nextToken), io, u)
            case Pause => Stops(s, Idle(LastOf(s.state)), u)
            case Resume => Runs(s, StateFor(s.state.last.value, s.nextToken), io, u)
            case Cancel => Stops(s, Cancelled, u)
  {
    var t := s.(cancelled := s.cancelled + TokenOf(s.state));
    assert t.cancelled + TokenOf(t.state) == t.cancelled;
    match to
    case Download(d) =>
      Begins(s, to, n, io, t, Prepare(LastDownloading(d)));
      Prepares(t, LastDownloading(d), n - 2, io);
    case Seed(p) =>
      Begins(s, to, n, io, t, Prepare(LastSeeding(p)));
      Prepares(t, LastSeeding(p), n - 2, io);
    case Pause =>
      Begins(s, to, n, io, t, ReadForIdle);
      Onward(t, ReadForIdle, t, Swap(Idle(LastOf(s.state))), n - 2, io);
      SwapsLast(t, Idle(LastOf(s.state)), n - 3, io);
    case Resume =>
      Begins(s, to, n, io, t, ReadLast);
      Onward(t, ReadLast, t, Prepare(s.state.last.value), n - 2, io);
      Prepares(t, s.state.last.value, n - 3, io);
    case Cancel =>
      Begins(s, to, n, io, t, ReadForCancel);
      Onward(t, ReadForCancel, t, Swap(Cancelled), n - 2, io);
      SwapsLast(t, Cancelled, n - 3, io);
  }

  /** A session paused and resumed, each by itself, is of the same kind again, with the same path, under a token that
      is new. */
  lemma {:induction false} PauseThenResume(s: Sys, m: nat, n: nat)
    requires m >= 6 && n >= 6
    ensures var u := Alone(Alone(s, Pause, m, true), Resume, n, true);
            match s.state
            case Downloading(d, _) => u.state == Downloading(d, s.nextToken)
            case Seeding(_, _) => u.state == Seeding(UploadDir, s.nextToken)
            case _ => true
  {
    CallAlone(s, Pause, m, true);
    CallAlone(Alone(s, Pause, m, true), Resume, n, true);
  }

  /** The calls of a run. */
  function Asked(acts: seq<Action>): set<Transition>
    decreases |acts|
  {
    if acts == [] then {} else (if acts[0].Start? then {acts[0].to} else {}) + Asked(acts[1..])
  }

  ghost predicate SeedAsked(asked: set<Transition>) {
    exists p :: Seed(p) in asked
  }

  ghost predicate LastFrom(l: LastState, asked: set<Transition>) {
    match l
    case LastDownloading(d) => Download(d) in asked
    case LastSeeding(_) => SeedAsked(asked)
  }

  /** A state is one that calls in `asked` have named. */
  ghost predicate StateFrom(s: State, asked: set<Transition>) {
    match s
    case Idle(None) => true
    case Idle(Some(LastDownloading(d))) => Download(d) in asked && Pause in asked
    case Idle(Some(LastSeeding(p))) => p == UploadDir && SeedAsked(asked) && Pause in asked
    case Downloading(d, _) => Download(d) in asked
    case Seeding(p, _) => p == UploadDir && SeedAsked(asked)
    case Cancelled => Cancel in asked
  }

  ghost predicate CallFrom(pc: Pc, asked: set<Transition>) {
    match pc
    case Check(to) => to in asked
    case CancelSection(to) => to in asked
    case ReadLast => true
    case Prepare(l) => LastFrom(l, asked)
    case Swap(next) => StateFrom(next, asked)
    case ReadForIdle => Pause in asked
    case ReadForCancel => Cancel in asked
    case _ => true
  }

  ghost predicate From(s: Sys, asked: set<Transition>) {
    StateFrom(s.state, asked) && forall i :: 0 <= i < |s.procs| ==> CallFrom(s.procs[i], asked)
  }

  lemma {:induction false} MoreAsked(s: Sys, asked: set<Transition>, more: set<Transition>)
    requires From(s, asked) && asked <= more
    ensures From(s, more)
  {
    if SeedAsked(asked) {
      var p :| Seed(p) in asked;
      assert Seed(p) in more;
    }
    forall i | 0 <= i < |s.procs| ensures CallFrom(s.procs[i], more) {
      assert CallFrom(s.procs[i], asked);
    }
  }

  lemma {:induction false} MoveFrom(s: Sys, asked: set<Transition>, i: nat, io: bool)
    requires From(s, asked) && i < |s.procs|
    ensures From(Moved(s, i, io), asked)
  {
    var u := Moved(s, i, io);
    assert CallFrom(s.procs[i], asked);
    forall j | 0 <= j < |u.procs| && j != i ensures CallFrom(u.procs[j], asked) {
      assert u.procs[j] == s.procs[j];
    }
  }

  lemma {:induction false} RunFrom(s: Sys, asked: set<Transition>, acts: seq<Action>)
    requires From(s, asked)
    ensures From(Run(s, acts), asked + Asked(acts))
    decreases |acts|
  {
    if acts == [] {
      assert asked + Asked(acts) == asked;
    } else {
      var now := asked + if acts[0].Start? then {acts[0].to} else {};
      MoreAsked(s, asked, now);
      match acts[0] {
        case Start(to) => assert From(Next(s, acts[0]), now);
        case Move(i, io) => if i < |s.procs| { MoveFrom(s, now, i, io); }
        case WorkerStops(_) =>
      }
      RunFrom(Next(s, acts[0]), now, acts[1..]);
      assert now + Asked(acts[1..]) == asked + Asked(acts);
    }
  }

  /** Over every interleaving of any calls: the session downloads only to where a Download asked, seeds only if a Seed
      asked, and then from the directory of uploads; it is paused only by a Pause, and then remembers one of these; it
      is cancelled only by a Cancel. */
  lemma {:induction false} StatesComeFromCalls(acts: seq<Action>)
    ensures match Run(FRESH, acts).state
            case Idle(None) => true
            case Idle(Some(LastDownloading(d))) => Download(d) in Asked(acts) && Pause in Asked(acts)
            case Idle(Some(LastSeeding(p))) => p == UploadDir && SeedAsked(Asked(acts)) && Pause in Asked(acts)
            case Downloading(d, _) => Download(d) in Asked(acts)
            case Seeding(p, _) => p == UploadDir && SeedAsked(Asked(acts))
            case Cancelled => Cancel in Asked(acts)
  {
    RunFrom(FRESH, {}, acts);
    assert {} + Asked(acts) == Asked(acts);
  }

  lemma {:induction false} AskedAre(acts: seq<Action>, to: Transition)
    ensures to in Asked(acts) <==> Start(to) in acts
    decreases |acts|
  {
    if acts != [] {
      AskedAre(acts[1..], to);
      assert acts == [acts[0]] + acts[1..];
    }
  }
}
