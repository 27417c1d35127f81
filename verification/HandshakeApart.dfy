/** The handshake when no opening overlaps the handlers of its own side, the handlers of a side overlapping in any
    way. */
module HandshakeApart {
  import opened Bytes
  import opened Handshake
  import Turn = HandshakeInTurn

  /** No handler runs on a side whose opening is under way, and no opening step while a handler is. */
  ghost predicate Apart(s: Sys, act: Action) {
    var x := Get(s, act.who);
    if act.Open? then AllDone(x) else !Underway(x.opening)
  }

  ghost predicate AllApart(s: Sys, acts: seq<Action>)
    requires Legal(s, acts)
    decreases |acts|
  {
    acts == [] || (Apart(s, acts[0]) && AllApart(Next(s, acts[0]), acts[1..]))
  }

  /** Nothing was handled before our Handshake went out, if we opened. */
  predicate OpenedFirst(x: Side) {
    match x.opening
    case NotOpening => true
    case Started => x.done == 0
    case Inserted => x.done == 0 && x.placed == 0
    case Sent => x.placed == 0 && x.sent == 0
  }

  /** The second handler, so far, found the first one done. */
  predicate Orderly(x: Side) {
    x.readAt == SECTIONS && x.activeAt == SECTIONS
  }

  /** Messages handled in turn so far, without harm. */
  ghost predicate Calm(x: Side, y: Side, v: Who) {
    && Turn.InTurn(x) && Turn.InTurn(y) && Turn.BothClean(Turn.LaneOf(x), Turn.LaneOf(y), v)
    && OpenedFirst(x) && OpenedFirst(y) && Orderly(x) && Orderly(y)
  }

  /** Sections done by the handler of a Bitfield. */
  function SecondStage(h: Handler): nat {
    match h
    case ReadSelf(_) => 0
    case ReadId(_, _) => 1
    case Activate(_, _, _) => 2
    case _ => 3
  }

  const RECORDED: nat := 3

  /** What the Handshake's handler reads: after an activation it no longer finds that we opened. */
  predicate StillOurs(x: Side)
    requires |x.handlers| >= 2
  {
    !(SecondStage(x.handlers[1]) == 3 && x.activeAt <= 1)
  }

  function IdFound(x: Side, v: Who): Who {
    if x.readAt >= RECORDED then Other(v) else v
  }

  function FirstHandler(x: Side, v: Who): Handler
    requires |x.handlers| >= 2
  {
    var o, h := Other(v), SectionsDone(x.handlers[0]);
    if h == 0 then FindPipeline(o) else if h == 1 then ReadOutbound(o) else if h == 2 then Record(o, StillOurs(x))
    else if h == 3 then Reply(StillOurs(x)) else Done
  }

  function SecondHandler(x: Side, v: Who): Handler
    requires |x.handlers| >= 2
  {
    var o, g := Other(v), SecondStage(x.handlers[1]);
    if g == 0 then ReadSelf(o) else if g == 1 then ReadId(o, true) else if g == 2 then Activate(o, true, IdFound(x, v))
    else Done
  }

  /** The entry before a third message: the last write wins. */
  function TwoHandlersEntry(x: Side, v: Who): Entry
    requires |x.handlers| >= 2
  {
    var o, h, g := Other(v), SectionsDone(x.handlers[0]), SecondStage(x.handlers[1]);
    if g < 3 then if h < RECORDED then Placeholder(v) else Pending(o, true)
    else if x.activeAt >= RECORDED || x.activeAt == 0 || h < RECORDED then Active(IdFound(x, v), o)
    else Pending(o, x.activeAt == 2)
  }

  function TwoHandlersOut(x: Side, v: Who): seq<Msg>
    requires |x.handlers| >= 2
  {
    var ended := SecondStage(x.handlers[1]) == 3 && x.activeAt == 0;
    if SectionsDone(x.handlers[0]) < SECTIONS || ended then [Handshake(v)]
    else [Handshake(v), if StillOurs(x) then Bitfield(v) else Handshake(v)]
  }

  /** A third message is a second Bitfield, dealt with when both handlers before are done; it sets things right. */
  ghost predicate ThirdOk(x: Side, v: Who)
    requires |x.handlers| == 3
  {
    var o, two := Other(v), [Handshake(v), Handshake(v)];
    && x.activeAt == 1 && x.handlers[0].Done? && x.handlers[1].Done?
    && match x.handlers[2]
       case ReadSelf(bits) => bits == o && x.entry == Pending(o, false) && x.out == two && x.done == 10
       case ReadId(bits, outbound) =>
         bits == o && !outbound && x.entry == Pending(o, false) && x.out == two && x.done == 11
       case Activate(bits, outbound, id) =>
         bits == o && id == o && !outbound && x.entry == Pending(o, false) && x.out == two && x.done == 12
       case Answer => x.entry == Active(o, o) && x.out == two && x.done == 13
       case Done => x.entry == Active(o, o) && x.out == two + [Bitfield(v)] && x.done == 14
       case _ => false
  }

  ghost predicate StagesOk(x: Side)
    requires |x.handlers| >= 2
  {
    var h, g := SectionsDone(x.handlers[0]), SecondStage(x.handlers[1]);
    && (g < 2 ==> x.readAt == SECTIONS) && (g < 3 ==> x.activeAt == SECTIONS)
    && (g >= 2 ==> x.readAt <= h) && (g == 3 ==> x.readAt <= x.activeAt <= h && (x.activeAt == 0 ==> h == 0 || h == 4))
  }

  /** A side that took up a Bitfield before it was done with the Handshake. */
  ghost predicate TwoAtOnce(x: Side, v: Who) {
    && x.opening == Sent && x.known && 2 <= |x.handlers| <= 3 && StagesOk(x)
    && if |x.handlers| == 3 then ThirdOk(x, v)
       else
         var h, g := SectionsDone(x.handlers[0]), SecondStage(x.handlers[1]);
         && x.handlers == [FirstHandler(x, v), SecondHandler(x, v)]
         && x.entry == TwoHandlersEntry(x, v) && x.out == TwoHandlersOut(x, v)
         && x.done == 2 + (if g == 3 && x.activeAt == 0 && h == 4 then 1 else h) + g
  }

  /** The other side handles in turn: it was done with the Handshake when it sent that Bitfield. */
  ghost predicate Tangled(x: Side, y: Side, v: Who) {
    && TwoAtOnce(x, v)
    && Turn.InTurn(y) && Turn.FirstOpener(Turn.LaneOf(y), Other(v), x.out) && y.done >= Turn.REPLY && Orderly(y)
    && |x.handlers| <= |y.out| && |y.handlers| <= |x.out|
  }

  lemma {:induction false} StepFirst(x: Side, v: Who)
    requires TwoAtOnce(x, v) && !x.handlers[0].Done?
    ensures TwoAtOnce(Steps(x, v, 0), v)
  {
  }

  lemma {:induction false} StepSecond(x: Side, v: Who)
    requires TwoAtOnce(x, v) && !x.handlers[1].Done?
    ensures TwoAtOnce(Steps(x, v, 1), v)
  {
  }

  lemma {:induction false} StepThird(x: Side, v: Who)
    requires TwoAtOnce(x, v) && |x.handlers| == 3 && !x.handlers[2].Done?
    ensures TwoAtOnce(Steps(x, v, 2), v)
  {
  }

  lemma {:induction false} OutGrows(x: Side, v: Who, i: nat)
    requires i < |x.handlers|
    ensures x.out <= Steps(x, v, i).out && |Steps(x, v, i).handlers| == |x.handlers|
  {
  }

  lemma {:induction false} TwoAtOnceSends(x: Side, v: Who)
    requires TwoAtOnce(x, v)
    ensures Turn.Sendable(x.out, v)
  {
  }

  lemma {:induction false} TangledSteps(x: Side, y: Side, v: Who, i: nat)
    requires Tangled(x, y, v) && i < |x.handlers| && !x.handlers[i].Done?
    ensures Tangled(Steps(x, v, i), y, v)
  {
    if i == 0 { StepFirst(x, v); } else if i == 1 { StepSecond(x, v); } else { StepThird(x, v); }
    var z := Steps(x, v, i);
    OutGrows(x, v, i);
    TwoAtOnceSends(z, v);
    Turn.FirstOpenerWaits(Turn.LaneOf(y), Other(v), x.out, z.out);
  }

  /** A third message comes only from a side that was sent a second Handshake. */
  lemma {:induction false} TangledTakes(x: Side, y: Side, v: Who)
    requires Tangled(x, y, v) && |x.handlers| < |y.out|
    ensures Tangled(Takes(x, y.out[|x.handlers|]), y, v)
  {
    assert y.out[2] == Bitfield(Other(v)) && x.out == [Handshake(v), Handshake(v)];
  }

  lemma {:induction false} OthersInTurn(x: Side, y: Side, v: Who)
    requires Tangled(x, y, v) && |y.handlers| < |x.out|
    ensures AllDone(y)
  {
    Turn.LaneIdle(y);
  }

  lemma {:induction false} OrderlyStays(y: Side, w: Who, i: nat)
    requires Turn.InTurn(y) && Orderly(y) && i < |y.handlers| && !y.handlers[i].Done?
    ensures Orderly(Steps(y, w, i))
  {
  }

  lemma {:induction false} OtherSteps(x: Side, y: Side, v: Who, i: nat)
    requires Tangled(x, y, v) && i < |y.handlers| && !y.handlers[i].Done?
    ensures Tangled(x, Steps(y, Other(v), i), v)
  {
    var w := Other(v);
    TwoAtOnceSends(x, v);
    Turn.LaneStep(y, w, i, x.out);
    OrderlyStays(y, w, i);
    OutGrows(y, w, i);
    Turn.FirstOpenerHandles(Turn.LaneOf(y), w, x.out);
  }

  lemma {:induction false} OtherTakes(x: Side, y: Side, v: Who)
    requires Tangled(x, y, v) && |y.handlers| < |x.out|
    ensures Tangled(x, Takes(y, x.out[|y.handlers|]), v)
  {
    var w := Other(v);
    TwoAtOnceSends(x, v);
    OthersInTurn(x, y, v);
    Turn.LaneTake(y, w, x.out);
    Turn.FirstOpenerHandles(Turn.LaneOf(y), w, x.out);
  }

  /** Two handlers come to overlap only between two sides that both opened, on one of them. */
  lemma {:induction false} CalmTakesSecond(x: Side, y: Side, v: Who)
    requires Calm(x, y, v) && !Underway(x.opening) && |x.handlers| < |y.out| && !AllDone(x)
    ensures Tangled(Takes(x, y.out[|x.handlers|]), y, v)
  {
    Turn.CleanSends(Turn.LaneOf(x), v);
    Turn.CleanSends(Turn.LaneOf(y), Other(v));
    if Turn.LaneOf(x).handler.Done? { Turn.LaneIdle(x); }
    assert |x.handlers| == 1 && x.opening == Sent && y.opening == Sent && y.out[1] == Bitfield(Other(v));
  }

  /** A side that nobody is known to, with no handler at work, has handled nothing. */
  lemma {:induction false} UnknownIsFresh(x: Side, v: Who)
    requires AllDone(x) && Turn.OnTrack(Turn.LaneOf(x), v) && x.opening == NotOpening && x.entry.Absent?
    ensures x.done == 0
  {
  }

  lemma {:induction false} CalmOpens(x: Side, y: Side, v: Who)
    requires Calm(x, y, v) && CanOpen(x.opening, x.entry) && AllDone(x)
    ensures Calm(Opens(x, v), y, v)
  {
    var z := Opens(x, v);
    if x.opening == NotOpening { UnknownIsFresh(x, v); }
    Turn.CleanOpens(Turn.LaneOf(x), Turn.LaneOf(y), v);
    assert Turn.LaneOf(z) == Turn.Opened(Turn.LaneOf(x), v);
    assert Turn.Clean(Turn.LaneOf(z));
  }

  lemma {:induction false} CalmTakes(x: Side, y: Side, v: Who)
    requires Calm(x, y, v) && !Underway(x.opening) && |x.handlers| < |y.out| && AllDone(x)
    ensures Calm(Takes(x, y.out[|x.handlers|]), y, v)
  {
    Turn.LaneTake(x, v, y.out);
    Turn.CleanHandles(Turn.LaneOf(x), Turn.LaneOf(y), v);
  }

  lemma {:induction false} CalmSteps(x: Side, y: Side, v: Who, i: nat)
    requires Calm(x, y, v) && !Underway(x.opening) && i < |x.handlers| && !x.handlers[i].Done?
    ensures Calm(Steps(x, v, i), y, v)
  {
    Turn.LaneStep(x, v, i, y.out);
    OrderlyStays(x, v, i);
    Turn.CleanHandles(Turn.LaneOf(x), Turn.LaneOf(y), v);
  }

  ghost predicate SidesOk(x: Side, y: Side, v: Who) {
    Calm(x, y, v) || Tangled(x, y, v) || Tangled(y, x, Other(v))
  }

  ghost predicate SysInv(s: Sys) {
    SidesOk(s.a, s.b, A)
  }

  lemma {:induction false} EitherSide(x: Side, y: Side, v: Who)
    ensures SidesOk(x, y, v) <==> SidesOk(y, x, Other(v))
  {
  }

  /** A step of side `w`. */
  lemma {:induction false} SideMoves(s: Sys, act: Action, w: Who)
    requires SidesOk(Get(s, w), Get(s, Other(w)), w) && Enabled(s, act) && Apart(s, act) && w == act.who
    ensures SidesOk(Get(Next(s, act), w), Get(s, Other(w)), w)
  {
    var x, y := Get(s, w), Get(s, Other(w));
    match act
    case Open(_) => if Calm(x, y, w) { CalmOpens(x, y, w); }
    case Take(_) =>
      if Calm(x, y, w) {
        if AllDone(x) { CalmTakes(x, y, w); } else { CalmTakesSecond(x, y, w); }
      } else if Tangled(x, y, w) {
        TangledTakes(x, y, w);
      } else {
        OtherTakes(y, x, Other(w));
      }
    case Step(_, i) =>
      if Calm(x, y, w) {
        CalmSteps(x, y, w, i);
      } else if Tangled(x, y, w) {
        TangledSteps(x, y, w, i);
      } else {
        OtherSteps(y, x, Other(w), i);
      }
  }

  lemma {:induction false} StepKeeps(s: Sys, act: Action)
    requires SysInv(s) && Enabled(s, act) && Apart(s, act)
    ensures SysInv(Next(s, act))
  {
    var w := act.who;
    EitherSide(s.a, s.b, A);
    SideMoves(s, act, w);
    EitherSide(Get(Next(s, act), w), Get(s, Other(w)), w);
  }

  lemma {:induction false} CalmBound(x: Side, y: Side, v: Who)
    requires Calm(x, y, v)
    ensures x.done <= 10 && y.done <= 10
  {
  }

  lemma {:induction false} TangledBound(x: Side, y: Side, v: Who)
    requires Tangled(x, y, v)
    ensures x.done <= 14 && y.done <= 14
  {
  }

  lemma {:induction false} ProgressBound(s: Sys)
    requires SysInv(s)
    ensures Progress(s) <= 34
  {
    if Calm(s.a, s.b, A) {
      CalmBound(s.a, s.b, A);
    } else if Tangled(s.a, s.b, A) {
      TangledBound(s.a, s.b, A);
    } else {
      TangledBound(s.b, s.a, B);
    }
  }

  lemma {:induction false} InitOk(a: bool, b: bool)
    ensures SysInv(Init(a, b))
  {
    assert Turn.OnTrack(Turn.LaneOf(Idle(a)), A) && Turn.OnTrack(Turn.LaneOf(Idle(b)), B);
  }

  /** Every run in which no opening overlaps keeps the invariant and is over after at most 34 steps. */
  lemma {:induction false} RunKeeps(s: Sys, acts: seq<Action>)
    requires SysInv(s) && Legal(s, acts) && AllApart(s, acts)
    ensures SysInv(Run(s, acts)) && Progress(s) + |acts| == Progress(Run(s, acts)) <= 34
    decreases |acts|
  {
    if acts == [] {
      ProgressBound(s);
    } else {
      StepKeeps(s, acts[0]);
      StepProgress(s, acts[0]);
      RunKeeps(Next(s, acts[0]), acts[1..]);
    }
  }

  /** The peer was recorded before the handler of the Bitfield read its id. */
  predicate InTime(x: Side) {
    x.readAt >= RECORDED
  }

  /** Side `x` is left waiting: it recorded the peer over its own activation; or the other activated before it looked
      for a pipeline, and so never answered. */
  predicate LeftPending(x: Side, y: Side) {
    x.activeAt == 2 || y.activeAt == 0
  }

  /** Side `x` is left with its own id: it read the placeholder, and activated too early for the Handshake's handler to
      go on, or too late for it to overwrite that. */
  predicate LeftWithOwnId(x: Side) {
    x.activeAt == 0 || (x.activeAt >= RECORDED && !InTime(x))
  }

  ghost predicate Outcome(x: Side, y: Side, v: Who) {
    && (x.entry.Pending? || x.entry.Active?)
    && (x.entry.Pending? <==> LeftPending(x, y))
    && (x.entry.id == v <==> LeftWithOwnId(x))
    && (x.entry.Active? ==> x.entry.bits == Other(v))
  }

  ghost predicate Idling(x: Side, y: Side) {
    AllDone(x) && |x.handlers| == |y.out| && !Underway(x.opening)
  }

  lemma {:induction false} SettledTangled(x: Side, y: Side, v: Who)
    requires Tangled(x, y, v) && Idling(x, y) && Idling(y, x)
    ensures Outcome(x, y, v) && Outcome(y, x, Other(v)) && InTime(y)
    ensures InTime(x) <==> x.entry == Active(Other(v), Other(v)) && x.out == [Handshake(v), Bitfield(v)]
    ensures InTime(x) ==> y.entry == Active(v, v) && y.out == [Handshake(Other(v)), Bitfield(Other(v))]
  {
  }

  lemma {:induction false} SettledCalm(x: Side, y: Side)
    requires Calm(x, y, A) && Idling(x, y) && Idling(y, x) && Rank(x.opening) + Rank(y.opening) + x.done + y.done > 0
    ensures x.entry == Active(B, B) && x.out == [Handshake(A), Bitfield(A)]
    ensures y.entry == Active(A, A) && y.out == [Handshake(B), Bitfield(B)]
  {
    Turn.SomeoneOpened(Turn.LaneOf(x), Turn.LaneOf(y));
    Turn.SettledClean(Turn.LaneOf(x), Turn.LaneOf(y));
  }

  /** The handshake with handlers overlapping in any way and no opening overlapping the handlers of its side. A run in
      which some side opened ends with both sides connected, after exactly two Handshakes and two Bitfields, exactly
      when on each side the peer was recorded before the handler of the Bitfield read its id. Which side hangs, and
      which keeps its own id for the peer's, is told by the sections of the Handshake's handler that were done when the
      other read the id and when it activated. */
  lemma {:induction false} OverlapOutcome(knewA: bool, knewB: bool, acts: seq<Action>)
    requires Legal(Init(knewA, knewB), acts) && AllApart(Init(knewA, knewB), acts) && acts != []
    requires Settled(Run(Init(knewA, knewB), acts))
    ensures var s := Run(Init(knewA, knewB), acts);
            && |acts| <= 34
            && (Connected(s) <==> InTime(s.a) && InTime(s.b))
            && Outcome(s.a, s.b, A) && Outcome(s.b, s.a, B)
  {
    InitOk(knewA, knewB);
    RunKeeps(Init(knewA, knewB), acts);
    var s := Run(Init(knewA, knewB), acts);
    if Calm(s.a, s.b, A) {
      SettledCalm(s.a, s.b);
    } else if Tangled(s.a, s.b, A) {
      SettledTangled(s.a, s.b, A);
    } else {
      SettledTangled(s.b, s.a, B);
    }
  }

  lemma {:induction false} OrderlyKeeps(s: Sys, act: Action)
    requires Turn.InTurn(s.a) && Turn.InTurn(s.b) && Orderly(s.a) && Orderly(s.b)
    requires Enabled(s, act) && Turn.OneAtATime(s, act)
    ensures var t := Next(s, act); Turn.InTurn(t.a) && Turn.InTurn(t.b) && Orderly(t.a) && Orderly(t.b)
  {
    Turn.LaneMoves(s, act);
    if act.Step? { OrderlyStays(Get(s, act.who), act.who, act.handler); }
  }

  lemma {:induction false} OrderlyRun(s: Sys, acts: seq<Action>)
    requires Turn.InTurn(s.a) && Turn.InTurn(s.b) && Orderly(s.a) && Orderly(s.b)
    requires Legal(s, acts) && Turn.AllOneAtATime(s, acts)
    ensures Orderly(Run(s, acts).a) && Orderly(Run(s, acts).b)
    decreases |acts|
  {
    if acts != [] {
      OrderlyKeeps(s, acts[0]);
      OrderlyRun(Next(s, acts[0]), acts[1..]);
    }
  }

  /** Hence if on no side an opening or a handler overlaps another handler, both sides end up connected. */
  lemma {:induction false} ApartConnects(knewA: bool, knewB: bool, acts: seq<Action>)
    requires Legal(Init(knewA, knewB), acts) && AllApart(Init(knewA, knewB), acts) && acts != []
    requires Turn.AllOneAtATime(Init(knewA, knewB), acts) && Settled(Run(Init(knewA, knewB), acts))
    ensures Connected(Run(Init(knewA, knewB), acts))
  {
    OrderlyRun(Init(knewA, knewB), acts);
    OverlapOutcome(knewA, knewB, acts);
  }

  lemma {:induction false} ApartAfter(s: Sys, acts: seq<Action>, t: Sys, act: Action)
    requires Leads(s, acts, t) && AllApart(s, acts) && Enabled(t, act) && Apart(t, act)
    ensures Leads(s, acts + [act], Next(t, act)) && AllApart(s, acts + [act])
    decreases |acts|
  {
    After(s, acts, t, act);
    if acts == [] {
      assert acts + [act] == [act] && [act][1..] == [];
    } else {
      ApartAfter(Next(s, acts[0]), acts[1..], t, act);
      assert (acts + [act])[1..] == acts[1..] + [act];
    }
  }

  /** A run of this kind leads to the state. */
  ghost predicate Reachable(s: Sys) {
    exists acts :: Reaches(s, acts)
  }

  ghost predicate Reaches(s: Sys, acts: seq<Action>) {
    Leads(Init(s.a.knew, s.b.knew), acts, s) && AllApart(Init(s.a.knew, s.b.knew), acts)
  }

  lemma {:induction false} ReachableOk(s: Sys)
    requires Reachable(s)
    ensures SysInv(s) && Progress(s) <= 34
  {
    var acts :| Reaches(s, acts);
    InitOk(s.a.knew, s.b.knew);
    RunKeeps(Init(s.a.knew, s.b.knew), acts);
  }

  lemma {:induction false} StepReaches(s: Sys, act: Action)
    requires Reachable(s) && Enabled(s, act) && Apart(s, act)
    ensures Reachable(Next(s, act)) && Progress(s) < Progress(Next(s, act)) <= 34
  {
    var acts :| Reaches(s, acts);
    ApartAfter(Init(s.a.knew, s.b.knew), acts, s, act);
    assert Reaches(Next(s, act), acts + [act]);
    StepProgress(s, act);
    ReachableOk(Next(s, act));
  }

  /** A side opening has nothing in hand, and no more was taken up than sent. */
  ghost predicate Able(s: Sys) {
    && (Underway(s.a.opening) ==> AllDone(s.a)) && (Underway(s.b.opening) ==> AllDone(s.b))
    && |s.a.handlers| <= |s.b.out| && |s.b.handlers| <= |s.a.out|
  }

  lemma {:induction false} ReachableAble(s: Sys)
    requires SysInv(s)
    ensures Able(s)
  {
  }

  lemma {:induction false} FindAction(s: Sys) returns (act: Action)
    requires Able(s) && !Settled(s)
    ensures Enabled(s, act) && Apart(s, act)
  {
    if Underway(s.a.opening) {
      act := Open(A);
    } else if Underway(s.b.opening) {
      act := Open(B);
    } else if !AllDone(s.a) {
      var i :| 0 <= i < |s.a.handlers| && !s.a.handlers[i].Done?;
      act := Step(A, i);
    } else if !AllDone(s.b) {
      var i :| 0 <= i < |s.b.handlers| && !s.b.handlers[i].Done?;
      act := Step(B, i);
    } else {
      act := if |s.a.handlers| < |s.b.out| then Take(A) else Take(B);
    }
  }

  /** A handler that has activated keeps its place in the order of sections. */
  predicate SameOrder(s: Sys, t: Sys) {
    && t.a.knew == s.a.knew && t.b.knew == s.b.knew
    && (|s.a.handlers| >= 2 && s.a.handlers[1].Done? ==>
          |t.a.handlers| >= 2 && t.a.handlers[1].Done? && t.a.readAt == s.a.readAt && t.a.activeAt == s.a.activeAt)
  }

  lemma {:induction false} StepKeepsOrder(s: Sys, act: Action)
    requires Enabled(s, act)
    ensures SameOrder(s, Next(s, act))
  {
  }

  lemma {:induction false} FindStep(s: Sys) returns (act: Action)
    requires Reachable(s) && !Settled(s)
    ensures Enabled(s, act) && Reachable(Next(s, act)) && Progress(s) < Progress(Next(s, act)) <= 34
  {
    ReachableOk(s);
    ReachableAble(s);
    act := FindAction(s);
    StepReaches(s, act);
  }

  /** Every run can be finished. */
  lemma {:induction false} CanFinish(s: Sys) returns (t: Sys)
    requires Reachable(s)
    ensures Reachable(t) && Settled(t) && SameOrder(s, t)
    decreases 34 - Progress(s)
  {
    if Settled(s) {
      t := s;
    } else {
      var act := FindStep(s);
      StepKeepsOrder(s, act);
      t := CanFinish(Next(s, act));
    }
  }

  /** A side whose opening is finished, nothing of the other's taken up. */
  predicate JustOpened(x: Side, w: Who) {
    x.opening == Sent && x.entry == Placeholder(w) && x.handlers == [] && x.out == [Handshake(w)]
  }

  lemma {:induction false} OpenSide(s: Sys, w: Who) returns (t: Sys)
    requires Reachable(s) && Get(s, w).opening == NotOpening && Get(s, w).entry == Absent && Get(s, w).handlers == []
    requires Get(s, w).out == []
    ensures Reachable(t) && t == Put(s, w, Get(t, w)) && JustOpened(Get(t, w), w) && Get(t, w).knew == Get(s, w).knew
  {
    var s1 := Next(s, Open(w));
    StepReaches(s, Open(w));
    var s2 := Next(s1, Open(w));
    StepReaches(s1, Open(w));
    t := Next(s2, Open(w));
    StepReaches(s2, Open(w));
  }

  lemma {:induction false} OpenBoth(knewA: bool, knewB: bool) returns (t: Sys)
    ensures Reachable(t) && JustOpened(t.a, A) && JustOpened(t.b, B) && t.a.knew == knewA && t.b.knew == knewB
  {
    var s := Init(knewA, knewB);
    assert Reaches(s, []);
    s := OpenSide(s, A);
    t := OpenSide(s, B);
  }

  lemma {:induction false} OtherReads(s: Sys) returns (t: Sys)
    requires Reachable(s) && JustOpened(s.a, A) && JustOpened(s.b, B)
    ensures Reachable(t) && t.a == s.a && t.b.knew == s.b.knew && t.b.opening == Sent && t.b.out == [Handshake(B)]
    ensures t.b.handlers == [Record(A, true)]
  {
    var s1 := Next(s, Take(B));
    StepReaches(s, Take(B));
    var s2 := Next(s1, Step(B, 0));
    StepReaches(s1, Step(B, 0));
    t := Next(s2, Step(B, 0));
    StepReaches(s2, Step(B, 0));
  }

  /** Side B deals with the Handshake at once. */
  lemma {:induction false} OtherReplies(s: Sys) returns (t: Sys)
    requires Reachable(s) && JustOpened(s.a, A) && JustOpened(s.b, B)
    ensures Reachable(t) && t.a == s.a && t.b.knew == s.b.knew && t.b.out == [Handshake(B), Bitfield(B)]
  {
    var s3 := OtherReads(s);
    var s4 := Next(s3, Step(B, 0));
    StepReaches(s3, Step(B, 0));
    t := Next(s4, Step(B, 0));
    StepReaches(s4, Step(B, 0));
  }

  /** Side A has two handlers at work, `h` sections of the first and `g` of the second done. */
  ghost predicate AtSections(s: Sys, h: nat, g: nat) {
    && s.a.opening == Sent && |s.a.handlers| == 2
    && SectionsDone(s.a.handlers[0]) == h && SecondStage(s.a.handlers[1]) == g
    && HandshakeHandler(s.a.handlers[0]) && BitfieldHandler(s.a.handlers[1])
    && (g < 3 ==> s.a.entry.Pending?)
  }

  predicate HandshakeHandler(h: Handler) {
    h.FindPipeline? || h.ReadOutbound? || h.Record? || h.Reply? || h.Done?
  }

  predicate BitfieldHandler(h: Handler) {
    h.ReadSelf? || h.ReadId? || h.Activate? || h.Done?
  }

  lemma {:induction false} TakeBoth(s: Sys) returns (t: Sys)
    requires Reachable(s) && JustOpened(s.a, A) && s.b.out == [Handshake(B), Bitfield(B)]
    ensures Reachable(t) && AtSections(t, 0, 0) && t.a.knew == s.a.knew && t.b == s.b
  {
    var s1 := Next(s, Take(A));
    StepReaches(s, Take(A));
    t := Next(s1, Take(A));
    StepReaches(s1, Take(A));
  }

  /** The first handler goes on to `k` sections, before the second activates. */
  lemma {:induction false} FirstUpTo(s: Sys, h: nat, g: nat, k: nat) returns (t: Sys)
    requires Reachable(s) && AtSections(s, h, g) && h <= k <= SECTIONS && g < 3
    ensures Reachable(t) && AtSections(t, k, g) && t.a.readAt == s.a.readAt && t.a.knew == s.a.knew && t.b == s.b
    decreases k - h
  {
    if h == k {
      t := s;
    } else {
      var u := Next(s, Step(A, 0));
      StepReaches(s, Step(A, 0));
      t := FirstUpTo(u, h + 1, g, k);
    }
  }

  lemma {:induction false} SecondReads(s: Sys, h: nat) returns (t: Sys)
    requires Reachable(s) && AtSections(s, h, 0)
    ensures Reachable(t) && AtSections(t, h, 2) && t.a.readAt == h && t.a.knew == s.a.knew && t.b == s.b
  {
    var u := Next(s, Step(A, 1));
    StepReaches(s, Step(A, 1));
    t := Next(u, Step(A, 1));
    StepReaches(u, Step(A, 1));
  }

  /** Every case occurs: on side A the handler of the Bitfield can read the id after any `p` sections of the Handshake's
      handler and activate after any `q`, whether or not the sides knew each other. */
  lemma {:induction false} EveryOverlapOccurs(p: nat, q: nat, knewA: bool, knewB: bool) returns (t: Sys)
    requires p <= q <= SECTIONS
    ensures Reachable(t) && Settled(t) && t.a.readAt == p && t.a.activeAt == q
    ensures t.a.knew == knewA && t.b.knew == knewB
  {
    var s := OpenBoth(knewA, knewB);
    s := OtherReplies(s);
    s := TakeBoth(s);
    s := FirstUpTo(s, 0, 0, p);
    s := SecondReads(s, p);
    s := FirstUpTo(s, p, 2, q);
    StepReaches(s, Step(A, 1));
    ActivatesHere(s, q);
    t := CanFinish(Next(s, Step(A, 1)));
  }

  lemma {:induction false} ActivatesHere(s: Sys, h: nat)
    requires Reachable(s) && AtSections(s, h, 2)
    ensures var t := Next(s, Step(A, 1)); t.a.handlers[1].Done? && t.a.activeAt == h && t.a.readAt == s.a.readAt
  {
    ReachableOk(s);
    OursActivates(s.a, s.b);
  }

  lemma {:induction false} OursActivates(x: Side, y: Side)
    requires SidesOk(x, y, A) && |x.handlers| == 2 && x.handlers[1].Activate? && x.opening == Sent
    ensures x.handlers[1].outbound
  {
  }

  /** One of them in full: both openings are finished, and A's handler of the Bitfield activates between two sections of
      its handler of the Handshake, which then overwrites that. A is left waiting, and B is not. */
  lemma {:induction false} OverlapHangs(knewA: bool, knewB: bool) returns (t: Sys)
    ensures Reachable(t) && Settled(t) && t.a.entry.Pending? && !t.b.entry.Pending?
  {
    t := EveryOverlapOccurs(0, 2, knewA, knewB);
    var acts :| Reaches(t, acts);
    assert t != Init(t.a.knew, t.b.knew);
    OverlapOutcome(t.a.knew, t.b.knew, acts);
    ReachableOk(t);
  }
}
