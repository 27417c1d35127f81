/** Torrent session transitions: any number of them at once, interleaved at their lock sections. */
module Transition {
  import opened Bytes

  /** A path of the user's, or the directory of the torrent's uploads, into which seeding links the user's files. */
  datatype Place = UserPath(number: int) | UploadDir

  /** Where a pause can resume from. */
  datatype LastState = LastDownloading(dest: int) | LastSeeding(path: Place)

  /** A state that has workers holds the number of the cancellation token it handed them. */
  datatype State =
    | Idle(last: Option<LastState>)
    | Downloading(dest: int, token: nat)
    | Seeding(path: Place, token: nat)
    | Cancelled

  datatype Transition = Download(dest: int) | Seed(path: Place) | Pause | Resume | Cancel

  /** `TorrentState::can_transition_to`. */
  predicate CanTransitionTo(s: State, to: Transition) {
    match to
    case Download(_) => s == Idle(None)
    case Seed(_) => s == Idle(None) || s.Downloading?
    case Pause => s.Downloading? || s.Seeding?
    case Resume => s.Idle? && s.last.Some?
    case Cancel => s.Downloading? || s.Seeding? || (s.Idle? && s.last.Some?)
  }

  function TokenOf(s: State): set<nat> {
    match s
    case Downloading(_, t) => {t}
    case Seeding(_, t) => {t}
    case _ => {}
  }

  function LastOf(s: State): Option<LastState> {
    match s
    case Downloading(d, _) => Some(LastDownloading(d))
    case Seeding(p, _) => Some(LastSeeding(p))
    case _ => None
  }

  /** A download keeps its destination; seeding, from wherever, goes on from the directory of uploads. */
  function StateFor(l: LastState, token: nat): State {
    match l
    case LastDownloading(d) => Downloading(d, token)
    case LastSeeding(_) => Seeding(UploadDir, token)
  }

  /** The locked state and the tokens cancelled so far. Dropping a state value cancels its token. */
  class SessionState {
    var state: State
    var cancelled: set<nat>

    constructor ()
      ensures state == Idle(None) && cancelled == {}
    {
      state, cancelled := Idle(None), {};
    }

    /** `cancel_inner` under the write lock. */
    method CancelInner()
      modifies this`cancelled
      ensures cancelled == old(cancelled) + TokenOf(state)
    {
      match state
      case Downloading(_, t) => cancelled := cancelled + {t};
      case Seeding(_, t) => cancelled := cancelled + {t};
      case _ =>
    }

    /** `swap_state`: a cancelled session drops the new state, any other drops the old one. */
    method SwapState(next: State)
      modifies this
      ensures (state, cancelled) == Swapped(old(state), old(cancelled), next)
    {
      if state.Cancelled? {
        cancelled := cancelled + TokenOf(next);
        return;
      }
      cancelled := cancelled + TokenOf(state);
      state := next;
    }
  }

  function Swapped(s: State, cancelled: set<nat>, next: State): (State, set<nat>) {
    if s.Cancelled? then (s, cancelled + TokenOf(next)) else (next, cancelled + TokenOf(s))
  }

  /** Where one call of `transition` stands: the lock section, or the work between two of them, it does next. */
  datatype Pc =
    | Check(to: Transition)
    | CancelSection(to: Transition)
    | ReadLast
    | Prepare(target: LastState)
    | Swap(next: State)
    | Spawn(token: nat)
    | ReadForIdle
    | ReadForCancel
    | Done
    | Aborted

  /** All calls under way, and the tokens handed to workers, in the order the workers were spawned. */
  datatype Sys = Sys(state: State, cancelled: set<nat>, nextToken: nat, procs: seq<Pc>, workers: seq<nat>)

  datatype Action = Start(to: Transition) | Move(proc: nat, ioSucceeds: bool) | WorkerStops(worker: nat)

  function At(s: Sys, i: nat, pc: Pc): Sys
    requires i < |s.procs|
  {
    s.(procs := s.procs[i := pc])
  }

  function Moved(s: Sys, i: nat, ioSucceeds: bool): Sys
    requires i < |s.procs|
  {
    match s.procs[i]
    case Check(to) => At(s, i, if CanTransitionTo(s.state, to) then CancelSection(to) else Done)
    case CancelSection(to) =>
      At(s.(cancelled := s.cancelled + TokenOf(s.state)), i,
         match to
         case Download(d) => Prepare(LastDownloading(d))
         case Seed(p) => Prepare(LastSeeding(p))
         case Pause => ReadForIdle
         case Resume => ReadLast
         case Cancel => ReadForCancel)
    case ReadLast => At(s, i, if s.state.Idle? && s.state.last.Some? then Prepare(s.state.last.value) else Aborted)
    case Prepare(l) =>
      At(s.(nextToken := s.nextToken + 1), i, if ioSucceeds then Swap(StateFor(l, s.nextToken)) else Done)
    case Swap(next) =>
      var (state, cancelled) := Swapped(s.state, s.cancelled, next);
      At(s.(state := state, cancelled := cancelled), i,
         match next
         case Downloading(_, t) => Spawn(t)
         case Seeding(_, t) => Spawn(t)
         case _ => Done)
    case Spawn(t) => At(s.(workers := s.workers + [t]), i, Done)
    case ReadForIdle => At(s, i, Swap(Idle(LastOf(s.state))))
    case ReadForCancel => At(s, i, if s.state.Cancelled? then Done else Swap(Cancelled))
    case Done => s
    case Aborted => s
  }

  function Next(s: Sys, act: Action): Sys {
    match act
    case Start(to) => s.(procs := s.procs + [Check(to)])
    case Move(i, io) => if i < |s.procs| then Moved(s, i, io) else s
    case WorkerStops(k) => if k < |s.workers| then s.(cancelled := s.cancelled + {s.workers[k]}) else s
  }

  function Run(s: Sys, acts: seq<Action>): Sys
    decreases |acts|
  {
    if acts == [] then s else Run(Next(s, acts[0]), acts[1..])
  }

  /** The token a call still holds for itself, or is about to hand to a worker. */
  function Held(pc: Pc): set<nat> {
    match pc
    case Swap(next) => TokenOf(next)
    case Spawn(t) => {t}
    case _ => {}
  }

  /** Every token is new: held by one call, or by one worker. */
  ghost predicate TokensNew(s: Sys) {
    && (forall i :: 0 <= i < |s.procs| ==> HeldNew(s, s.procs[i]))
    && (forall i, j :: 0 <= i < j < |s.procs| ==> Held(s.procs[i]) !! Held(s.procs[j]))
    && (forall k :: 0 <= k < |s.workers| ==> s.workers[k] < s.nextToken)
    && (forall k, l :: 0 <= k < l < |s.workers| ==> s.workers[k] != s.workers[l])
  }

  ghost predicate HeldNew(s: Sys, pc: Pc) {
    forall t :: t in Held(pc) ==> t < s.nextToken && t !in s.workers
  }

  predicate Current(s: Sys, t: nat) {
    t in s.cancelled || t in TokenOf(s.state)
  }

  /** A token past its swap is cancelled or is the current state's. */
  ghost predicate TokensCurrent(s: Sys) {
    && (forall i :: 0 <= i < |s.procs| && s.procs[i].Spawn? ==> Current(s, s.procs[i].token))
    && (forall k :: 0 <= k < |s.workers| ==> Current(s, s.workers[k]))
  }

  ghost predicate Inv(s: Sys) {
    TokensNew(s) && TokensCurrent(s)
  }

  /** A call may drop what it holds, or take the next token. */
  lemma {:induction false} AtKeepsNew(s: Sys, i: nat, pc: Pc, next: nat)
    requires TokensNew(s) && i < |s.procs| && s.nextToken <= next
    requires Held(pc) <= Held(s.procs[i]) || (Held(pc) == {s.nextToken} && s.nextToken < next)
    ensures TokensNew(At(s, i, pc).(nextToken := next))
  {
    var t := At(s, i, pc).(nextToken := next);
    forall j | 0 <= j < |t.procs| ensures HeldNew(t, t.procs[j]) {
      assert HeldNew(s, s.procs[j]) && HeldNew(s, s.procs[i]);
      forall x | x in Held(pc) ensures x < next && x !in s.workers {
        assert x in Held(s.procs[i]) || x == s.nextToken;
      }
    }
    forall j | 0 <= j < |t.procs| && j != i ensures Held(pc) !! Held(s.procs[j]) {
      assert HeldNew(s, s.procs[j]);
    }
  }

  lemma {:induction false} MoveNew(s: Sys, i: nat, io: bool)
    requires TokensNew(s) && i < |s.procs|
    ensures TokensNew(Moved(s, i, io))
  {
    var t := Moved(s, i, io);
    assert HeldNew(s, s.procs[i]);
    AtKeepsNew(s, i, t.procs[i], t.nextToken);
    var u := At(s, i, t.procs[i]).(nextToken := t.nextToken);
    assert u.procs == t.procs;
    forall j | 0 <= j < |t.procs| ensures HeldNew(t, t.procs[j]) {
      assert HeldNew(u, u.procs[j]);
      if s.procs[i].Spawn? && j != i { assert s.procs[i].token in Held(s.procs[i]); }
    }
  }

  lemma {:induction false} MoveCurrent(s: Sys, i: nat, io: bool)
    requires TokensCurrent(s) && i < |s.procs|
    ensures TokensCurrent(Moved(s, i, io))
  {
    var t := Moved(s, i, io);
    forall x | Current(s, x) ensures Current(t, x) {}
  }

  lemma {:induction false} MoveKeeps(s: Sys, i: nat, io: bool)
    requires Inv(s) && i < |s.procs|
    ensures Inv(Moved(s, i, io))
  {
    MoveNew(s, i, io);
    MoveCurrent(s, i, io);
  }

  lemma {:induction false} StartKeeps(s: Sys, to: Transition)
    requires Inv(s)
    ensures Inv(Next(s, Start(to)))
  {
    var t := Next(s, Start(to));
    forall j | 0 <= j < |t.procs| ensures HeldNew(t, t.procs[j]) {
      if j < |s.procs| { assert HeldNew(s, s.procs[j]); }
    }
  }

  lemma {:induction false} StopKeeps(s: Sys, k: nat)
    requires Inv(s)
    ensures Inv(Next(s, WorkerStops(k)))
  {
    var t := Next(s, WorkerStops(k));
    forall j | 0 <= j < |t.procs| ensures HeldNew(t, t.procs[j]) { assert HeldNew(s, s.procs[j]); }
  }

  lemma {:induction false} StepKeeps(s: Sys, act: Action)
    requires Inv(s)
    ensures Inv(Next(s, act))
    ensures s.state.Cancelled? ==> Next(s, act).state.Cancelled?
    ensures s.cancelled <= Next(s, act).cancelled && s.workers <= Next(s, act).workers
  {
    match act
    case Start(to) => StartKeeps(s, to);
    case Move(i, io) => if i < |s.procs| { MoveKeeps(s, i, io); }
    case WorkerStops(k) => StopKeeps(s, k);
  }

  /** Over every interleaving: a cancelled session stays cancelled, and no token is ever un-cancelled. */
  lemma {:induction false} RunKeeps(s: Sys, acts: seq<Action>)
    requires Inv(s)
    ensures Inv(Run(s, acts))
    ensures s.state.Cancelled? ==> Run(s, acts).state.Cancelled?
    ensures s.cancelled <= Run(s, acts).cancelled
    decreases |acts|
  {
    if acts != [] {
      StepKeeps(s, acts[0]);
      RunKeeps(Next(s, acts[0]), acts[1..]);
    }
  }

  const FRESH: Sys := Sys(Idle(None), {}, 0, [], [])

  /** At most one worker at any moment of any run holds an uncancelled token, and it is the current state's; once the
      session is cancelled there is none. */
  lemma {:induction false} OneLiveWorker(acts: seq<Action>, k: nat, l: nat)
    requires var s := Run(FRESH, acts);
             && k < |s.workers| && l < |s.workers|
             && s.workers[k] !in s.cancelled && s.workers[l] !in s.cancelled
    ensures var s := Run(FRESH, acts); k == l && TokenOf(s.state) == {s.workers[k]} && !s.state.Cancelled?
  {
    RunKeeps(FRESH, acts);
    var s := Run(FRESH, acts);
    assert Current(s, s.workers[k]) && Current(s, s.workers[l]);
  }

  predicate Paused(s: State) {
    s.Idle? && s.last.Some?
  }

  /** A call that, from a paused session, leaves it paused whatever happens: its own check fails, or it has nothing more
      to swap in than another pause. */
  predicate Quiet(pc: Pc) {
    match pc
    case Check(to) => !to.Resume? && !to.Cancel?
    case Swap(next) => Paused(next)
    case Spawn(_) => true
    case Done => true
    case Aborted => true
    case _ => false
  }

  ghost predicate OthersQuiet(s: Sys, i: nat) {
    forall j :: 0 <= j < |s.procs| && j != i ==> Quiet(s.procs[j])
  }

  ghost predicate NoStart(acts: seq<Action>) {
    forall k :: 0 <= k < |acts| ==> !acts[k].Start?
  }

  predicate BeforeReRead(pc: Pc) {
    pc == Check(Resume) || pc == CancelSection(Resume) || pc == ReadLast
  }

  /** A Resume among quiet calls is past its re-read, or the session is still paused. */
  ghost predicate Safe(s: Sys, i: nat) {
    && i < |s.procs| && s.procs[i] != Aborted
    && (BeforeReRead(s.procs[i]) ==> Paused(s.state) && OthersQuiet(s, i))
    && (!BeforeReRead(s.procs[i]) ==> !s.procs[i].Check? && !s.procs[i].CancelSection?)
  }

  lemma {:induction false} SafeStays(s: Sys, i: nat, acts: seq<Action>)
    requires Safe(s, i) && NoStart(acts)
    ensures Safe(Run(s, acts), i)
    decreases |acts|
  {
    if acts != [] {
      assert Safe(Next(s, acts[0]), i);
      SafeStays(Next(s, acts[0]), i, acts[1..]);
    }
  }

  /** Moves a call that is not quiet needs before it swaps the pause away. */
  function MovesLeft(pc: Pc): nat {
    match pc
    case Check(_) => 6
    case CancelSection(_) => 5
    case ReadLast => 4
    case Prepare(_) => 3
    case ReadForIdle => 3
    case ReadForCancel => 3
    case _ => 2
  }

  /** Such a call, run ahead of the re-read, makes it abort. */
  lemma {:induction false} Disturb(s: Sys, i: nat, j: nat) returns (acts: seq<Action>)
    requires i < |s.procs| && j < |s.procs| && i != j && s.procs[i] == ReadLast && Paused(s.state) && !Quiet(s.procs[j])
    ensures NoStart(acts) && |Run(s, acts).procs| == |s.procs| && Run(s, acts).procs[i] == Aborted
    decreases MovesLeft(s.procs[j])
  {
    var t := Moved(s, j, true);
    var rest: seq<Action>;
    if Paused(t.state) {
      rest := Disturb(t, i, j);
    } else {
      rest := [Move(i, true)];
      RunStep(t, Move(i, true), [], Moved(t, i, true));
    }
    acts := [Move(j, true)] + rest;
    RunStep(s, Move(j, true), rest, Run(t, rest));
  }

  /** The exact condition: from a paused session a Resume can hit the arm marked unreachable, with no further call
      started, if and only if one of the other calls under way is not quiet. */
  lemma {:induction false} ResumeAbortsIff(s: Sys, i: nat)
    requires i < |s.procs| && s.procs[i] == Check(Resume) && Paused(s.state)
    ensures (exists acts :: NoStart(acts) && i < |Run(s, acts).procs| && Run(s, acts).procs[i] == Aborted) <==>
            exists j :: 0 <= j < |s.procs| && j != i && !Quiet(s.procs[j])
  {
    if OthersQuiet(s, i) {
      forall acts | NoStart(acts) ensures Safe(Run(s, acts), i) {
        SafeStays(s, i, acts);
      }
    } else {
      var j :| 0 <= j < |s.procs| && j != i && !Quiet(s.procs[j]);
      var go := Move(i, true);
      var t := Moved(Moved(s, i, true), i, true);
      var acts := Disturb(t, i, j);
      RunStep(Moved(s, i, true), go, acts, Run(t, acts));
      RunStep(s, go, [go] + acts, Run(t, acts));
      assert NoStart([go] + ([go] + acts));
    }
  }

  lemma {:induction false} RunStep(s: Sys, act: Action, acts: seq<Action>, t: Sys)
    requires Run(Next(s, act), acts) == t
    ensures Run(s, [act] + acts) == t
  {
    assert ([act] + acts)[1..] == acts;
  }

  lemma {:induction false} RunConcat(s: Sys, acts: seq<Action>, more: seq<Action>)
    ensures Run(s, acts + more) == Run(Run(s, acts), more)
    decreases |acts|
  {
    if acts == [] {
      assert acts + more == more;
    } else {
      RunConcat(Next(s, acts[0]), acts[1..], more);
      assert (acts + more)[1..] == acts[1..] + more;
    }
  }

  /** A call that is a pause and has still to read the state it will resume from. */
  predicate ReadingPause(pc: Pc) {
    pc == Check(Pause) || pc == CancelSection(Pause) || pc == ReadForIdle
  }

  /** A call that will, or may, swap in an idle state that can be resumed. */
  predicate PausingCall(pc: Pc) {
    ReadingPause(pc) || (pc.Swap? && Paused(pc.next))
  }

  predicate Forgetting(pc: Pc) {
    pc == Swap(Idle(None))
  }

  predicate Running(s: State) {
    s.Downloading? || s.Seeding?
  }

  /** Two calls that can forget between them where to resume from: one swaps in a pause, then the other reads it. */
  ghost predicate ForgetfulPair(s: Sys) {
    exists i, j ::
      0 <= i < |s.procs| && 0 <= j < |s.procs| && i != j && ReadingPause(s.procs[i]) && PausingCall(s.procs[j])
  }

  ghost predicate HasForgetting(s: Sys) {
    exists i :: 0 <= i < |s.procs| && Forgetting(s.procs[i])
  }

  /** Nothing can be forgotten any more: the session is cancelled; or it is not idle for good, no call is about to make
      it so, and a pause that has still to read the state will find it running, or cancelled. */
  ghost predicate Mindful(s: Sys) {
    || s.state.Cancelled?
    || (&& s.state != Idle(None) && !HasForgetting(s) && !ForgetfulPair(s)
        && (s.state.Idle? ==> forall i :: 0 <= i < |s.procs| ==> !ReadingPause(s.procs[i])))
  }

  lemma {:induction false} MindfulMove(s: Sys, i: nat, io: bool)
    requires Mindful(s) && i < |s.procs|
    ensures Mindful(Moved(s, i, io))
  {
    var t := Moved(s, i, io);
    if !t.state.Cancelled? {
      assert forall j :: 0 <= j < |t.procs| && j != i ==> t.procs[j] == s.procs[j];
      assert !Forgetting(s.procs[i]);
      assert PausingCall(t.procs[i]) ==> PausingCall(s.procs[i]);
      assert ReadingPause(t.procs[i]) ==> ReadingPause(s.procs[i]);
    }
  }

  lemma {:induction false} MindfulStays(s: Sys, acts: seq<Action>)
    requires Mindful(s) && NoStart(acts)
    ensures Mindful(Run(s, acts))
    decreases |acts|
  {
    if acts != [] {
      if acts[0].Move? && acts[0].proc < |s.procs| { MindfulMove(s, acts[0].proc, acts[0].ioSucceeds); }
      MindfulStays(Next(s, acts[0]), acts[1..]);
    }
  }

  /** A pausing call of a running session, run alone, swaps in a pause; a reading pause among the others stays. */
  lemma {:induction false} PauseFirst(s: Sys, j: nat, i: nat) returns (acts: seq<Action>)
    requires i < |s.procs| && j < |s.procs| && i != j && Running(s.state) && PausingCall(s.procs[j])
    ensures NoStart(acts)
    ensures var t := Run(s, acts); |t.procs| == |s.procs| && t.procs[i] == s.procs[i] && Paused(t.state)
    decreases MovesLeft(s.procs[j])
  {
    var t := Moved(s, j, true);
    if s.procs[j].Swap? {
      acts := [Move(j, true)];
      RunStep(s, Move(j, true), [], t);
    } else {
      var rest := PauseFirst(t, j, i);
      acts := [Move(j, true)] + rest;
      RunStep(s, Move(j, true), rest, Run(t, rest));
    }
  }

  /** A reading pause of a running session can be brought to its read. */
  lemma {:induction false} ReadyToRead(s: Sys, i: nat, j: nat) returns (acts: seq<Action>)
    requires i < |s.procs| && j < |s.procs| && i != j && Running(s.state) && ReadingPause(s.procs[i])
    ensures NoStart(acts)
    ensures var t := Run(s, acts);
            && |t.procs| == |s.procs| && t.procs[i] == ReadForIdle && t.procs[j] == s.procs[j] && t.state == s.state
    decreases MovesLeft(s.procs[i])
  {
    if s.procs[i] == ReadForIdle {
      acts := [];
    } else {
      var rest := ReadyToRead(Moved(s, i, true), i, j);
      acts := [Move(i, true)] + rest;
      RunStep(s, Move(i, true), rest, Run(Moved(s, i, true), rest));
    }
  }

  /** And two of them end in an idle state that cannot be resumed. */
  lemma {:induction false} PairForgets(s: Sys, i: nat, j: nat) returns (acts: seq<Action>)
    requires i < |s.procs| && j < |s.procs| && i != j && Running(s.state)
    requires ReadingPause(s.procs[i]) && PausingCall(s.procs[j])
    ensures NoStart(acts) && Run(s, acts).state == Idle(None)
  {
    var first := ReadyToRead(s, i, j);
    var s1 := Run(s, first);
    var second := PauseFirst(s1, j, i);
    var s2 := Run(s1, second);
    var s3 := Moved(s2, i, true);
    var s4 := Moved(s3, i, true);
    var go := Move(i, true);
    RunStep(s3, go, [], s4);
    RunStep(s2, go, [go], s4);
    RunConcat(s, first, second);
    RunConcat(s, first + second, [go] + [go]);
    acts := first + second + ([go] + [go]);
  }

  /** The exact condition: a running session can end, with no further call started, in an idle state that cannot be
      resumed if and only if a call is about to swap one in, or two calls are pauses of which one has still to read the
      state and the other still to swap. */
  lemma {:induction false} ForgetsIff(s: Sys)
    requires Running(s.state)
    ensures (exists acts :: NoStart(acts) && Run(s, acts).state == Idle(None)) <==> HasForgetting(s) || ForgetfulPair(s)
  {
    if HasForgetting(s) {
      var i :| 0 <= i < |s.procs| && Forgetting(s.procs[i]);
      RunStep(s, Move(i, true), [], Moved(s, i, true));
      assert NoStart([Move(i, true)] + []);
    } else if ForgetfulPair(s) {
      var i, j :|
        0 <= i < |s.procs| && 0 <= j < |s.procs| && i != j && ReadingPause(s.procs[i]) && PausingCall(s.procs[j]);
      var acts := PairForgets(s, i, j);
    } else {
      forall acts | NoStart(acts) ensures Run(s, acts).state != Idle(None) {
        MindfulStays(s, acts);
      }
    }
  }

  /** A download from the start: the state, and the worker it spawned. */
  lemma {:induction false} DownloadRuns(dest: int) returns (acts: seq<Action>)
    ensures Run(FRESH, acts) == Sys(Downloading(dest, 0), {}, 1, [Done], [0])
  {
    var d, go := Download(dest), Move(0, true);
    var s1 := Sys(Idle(None), {}, 0, [Check(d)], []);
    var s2 := Sys(Idle(None), {}, 0, [CancelSection(d)], []);
    var s3 := Sys(Idle(None), {}, 0, [Prepare(LastDownloading(dest))], []);
    var s4 := Sys(Idle(None), {}, 1, [Swap(Downloading(dest, 0))], []);
    var s5 := Sys(Downloading(dest, 0), {}, 1, [Spawn(0)], []);
    var s6 := Sys(Downloading(dest, 0), {}, 1, [Done], [0]);
    acts := Before(s5, 0, s6, [], s6);
    acts := Before(s4, 0, s5, acts, s6);
    acts := Before(s3, 0, s4, acts, s6);
    acts := Before(s2, 0, s3, acts, s6);
    acts := Before(s1, 0, s2, acts, s6);
    assert Next(FRESH, Start(d)) == s1;
    RunStep(FRESH, Start(d), acts, s6);
    acts := [Start(d)] + acts;
  }

  /** From the start: of a download paused twice at once, the way back can be forgotten. */
  lemma {:induction false} DoublePauseForgets(dest: int) returns (acts: seq<Action>, more: seq<Action>)
    ensures Run(FRESH, acts).state == Downloading(dest, 0) && NoStart(more)
    ensures Run(FRESH, acts + more).state == Idle(None)
  {
    var begin := DownloadRuns(dest);
    var s0 := Run(FRESH, begin);
    var s2 := Run(s0, [Start(Pause), Start(Pause)]);
    TwoStarts(s0, Pause, Pause);
    assert s2 == Sys(Downloading(dest, 0), {}, 1, [Done, Check(Pause), Check(Pause)], [0]);
    more := PairForgets(s2, 1, 2);
    acts := begin + [Start(Pause), Start(Pause)];
    RunConcat(FRESH, begin, [Start(Pause), Start(Pause)]);
    RunConcat(FRESH, acts, more);
  }

  lemma {:induction false} TwoStarts(s: Sys, a: Transition, b: Transition)
    ensures Run(s, [Start(a), Start(b)]) == s.(procs := s.procs + [Check(a), Check(b)])
  {
    var s1 := Next(s, Start(a));
    var s2 := Next(s1, Start(b));
    RunStep(s1, Start(b), [], s2);
    RunStep(s, Start(a), [Start(b)], s2);
    assert s2.procs == s.procs + [Check(a), Check(b)];
    assert [Start(a)] + [Start(b)] == [Start(a), Start(b)] && [Start(b)] + [] == [Start(b)];
  }

  /** From the start: a download is paused, and its Resume, overlapping with a Cancel, hits the arm marked
      unreachable. */
  lemma {:induction false} ResumeCanAbort(dest: int) returns (acts: seq<Action>)
    ensures var s := Run(FRESH, acts); |s.procs| == 4 && s.procs[2] == Aborted
  {
    var begin := DownloadRuns(dest);
    var s0 := Run(FRESH, begin);
    var s1 := Next(s0, Start(Pause));
    var pause := PauseFirst(s1, 1, 0);
    var s2 := Run(s1, pause);
    RunStep(s0, Start(Pause), pause, s2);
    RunConcat(FRESH, begin, [Start(Pause)] + pause);
    var s3 := Run(s2, [Start(Resume), Start(Cancel)]);
    TwoStarts(s2, Resume, Cancel);
    RunConcat(FRESH, begin + ([Start(Pause)] + pause), [Start(Resume), Start(Cancel)]);
    assert !Quiet(s3.procs[3]);
    ResumeAbortsIff(s3, 2);
    var more :| NoStart(more) && 2 < |Run(s3, more).procs| && Run(s3, more).procs[2] == Aborted;
    acts := begin + ([Start(Pause)] + pause) + [Start(Resume), Start(Cancel)] + more;
    RunConcat(FRESH, begin + ([Start(Pause)] + pause) + [Start(Resume), Start(Cancel)], more);
    SameCalls(s3, more);
  }

  lemma {:induction false} SameCalls(s: Sys, acts: seq<Action>)
    requires NoStart(acts)
    ensures |Run(s, acts).procs| == |s.procs|
    decreases |acts|
  {
    if acts != [] { SameCalls(Next(s, acts[0]), acts[1..]); }
  }

  /** One more move in front of a run. */
  lemma {:induction false} Before(s: Sys, i: nat, u: Sys, acts: seq<Action>, end: Sys) returns (more: seq<Action>)
    requires i < |s.procs| && Run(u, acts) == end
    requires var m := Moved(s, i, true);
             && m.state == u.state && m.cancelled == u.cancelled && m.nextToken == u.nextToken
             && m.procs == u.procs && m.workers == u.workers
    ensures Run(s, more) == end
  {
    more := [Move(i, true)] + acts;
    assert Next(s, Move(i, true)) == u;
    RunStep(s, Move(i, true), acts, end);
  }
}
