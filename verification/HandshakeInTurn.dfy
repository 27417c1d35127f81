/** The handshake when a side handles one message at a time, its opening overlapping the handlers in any way. */
module HandshakeInTurn {
  import opened Bytes
  import opened Handshake

  /** A side that handles one message at a time: the handler of the message in hand, and the number taken up. */
  datatype Lane = Lane(entry: Entry, opening: Opening, known: bool, knew: bool, handler: Handler, out: seq<Msg>,
                       got: nat, done: nat, placed: nat, sent: nat)

  /** Numbers of the steps of the first Handshake's handler and of the Bitfield's handler after it; the first step of
      each is the dispatch. */
  const READ_OUTBOUND := 3
  const RECORD := 4
  const REPLY := 5
  const READ_SELF := 7
  const READ_ID := 8
  const ACTIVATE := 9
  const ANSWER := 10

  predicate CanHandle(x: Lane, msgs: seq<Msg>) {
    x.handler.Done? ==> x.got < |msgs|
  }

  function Opened(x: Lane, w: Who): Lane {
    match x.opening
    case NotOpening => x.(entry := Marked(x.entry), opening := Started)
    case Started => x.(entry := Placeholder(w), opening := Inserted, placed := x.done)
    case Inserted => x.(out := x.out + [Handshake(w)], opening := Sent, sent := x.done)
    case Sent => x
  }

  /** The dispatch of the next message, or one section of the handler at work. */
  function Handled(x: Lane, w: Who, msgs: seq<Msg>): Lane
    requires CanHandle(x, msgs)
  {
    if x.handler.Done? then
      var (known, handled) := Dispatched(x.known, msgs[x.got]);
      x.(known := known, handler := if handled then Begun(msgs[x.got]) else Done, got := x.got + 1, done := x.done + 1)
    else
      var (entry, next, m) := Section(x.entry, x.handler, w);
      x.(entry := entry, handler := next, out := Push(x.out, m), done := x.done + 1)
  }

  predicate Placed(x: Lane) {
    x.opening == Inserted || x.opening == Sent
  }

  /** The handler of the first Handshake finds our placeholder. */
  predicate FoundPlaceholder(x: Lane) {
    Placed(x) && x.placed < READ_OUTBOUND
  }

  /** The handler of the Bitfield takes us for the one who opened. */
  predicate TookOurs(x: Lane) {
    Placed(x) && (x.placed < READ_OUTBOUND || RECORD <= x.placed < READ_SELF)
  }

  /** The placeholder stands where that handler reads the peer's id. */
  predicate ReadPlaceholder(x: Lane) {
    Placed(x) && RECORD <= x.placed < READ_ID
  }

  /** The placeholder replaced an active entry. */
  predicate Replaced(x: Lane) {
    Placed(x) && x.placed >= ACTIVATE
  }

  /** Sections until a Handshake and a Bitfield are dealt with. */
  function End(x: Lane): nat {
    if TookOurs(x) then ACTIVATE else ANSWER
  }

  /** The life of a side that is sent a Handshake, a Bitfield and perhaps another Bitfield, told by its counters. */
  function TrackHandler(x: Lane, o: Who): Handler {
    if x.done == 0 || x.done == REPLY || x.done == End(x) then Done
    else if x.done == 1 then FindPipeline(o)
    else if x.done == 2 then ReadOutbound(o)
    else if x.done == READ_OUTBOUND then Record(o, FoundPlaceholder(x))
    else if x.done == RECORD then Reply(FoundPlaceholder(x))
    else if x.done == 6 then ReadSelf(o)
    else if x.done == READ_SELF then ReadId(o, TookOurs(x))
    else if x.done == READ_ID then Activate(o, TookOurs(x), if ReadPlaceholder(x) then Other(o) else o)
    else if x.done == ACTIVATE then Answer
    else if x.done == End(x) + 1 then ReadSelf(o)
    else if x.done == End(x) + 2 then ReadId(o, Replaced(x))
    else if x.done == End(x) + 3 && Replaced(x) then Activate(o, true, Other(o))
    else Done
  }

  function TrackEntry(x: Lane, o: Who): Entry {
    if x.done < RECORD then
      match x.opening
      case NotOpening => Absent
      case Started => Connecting
      case _ => Placeholder(Other(o))
    else if x.done < ACTIVATE then
      if Placed(x) && x.placed >= RECORD then Placeholder(Other(o)) else Pending(o, FoundPlaceholder(x))
    else if Replaced(x) then
      if x.done < ANSWER + 4 then Placeholder(Other(o)) else Active(Other(o), o)
    else Active(if ReadPlaceholder(x) then Other(o) else o, o)
  }

  function TrackOut(x: Lane, v: Who): seq<Msg> {
    var reply := if x.done < REPLY then [] else if FoundPlaceholder(x) then [Bitfield(v)] else [Handshake(v)];
    var answer := if x.done < ANSWER || TookOurs(x) then [] else [Bitfield(v)];
    if x.opening != Sent then reply + answer
    else if x.sent < REPLY then [Handshake(v)] + reply + answer
    else if x.sent < ANSWER then reply + [Handshake(v)] + answer
    else reply + answer + [Handshake(v)]
  }

  function TrackGot(x: Lane): nat {
    if x.done == 0 then 0 else if x.done <= REPLY then 1 else if x.done <= End(x) then 2 else 3
  }

  ghost predicate OnTrack(x: Lane, v: Who) {
    && x.placed <= x.done && x.sent <= x.done && (x.opening == Sent ==> x.placed <= x.sent)
    && x.done <= End(x) + (if Replaced(x) then 4 else 3) && x.known == (x.knew || x.done > 0)
    && x.entry == TrackEntry(x, Other(v)) && x.handler == TrackHandler(x, Other(v))
    && x.out == TrackOut(x, v) && x.got == TrackGot(x)
  }

  /** So far the placeholder was in time for the first read, and our Handshake for the reply. */
  predicate Clean(x: Lane) {
    match x.opening
    case NotOpening => true
    case Started => x.done < READ_OUTBOUND
    case Inserted => x.placed < READ_OUTBOUND && x.done < REPLY
    case Sent => x.placed < READ_OUTBOUND && x.sent < REPLY
  }

  lemma {:induction false} TrackOpen(x: Lane, v: Who)
    requires OnTrack(x, v) && CanOpen(x.opening, x.entry) && x.done <= End(x)
    ensures OnTrack(Opened(x, v), v)
    ensures Clean(Opened(x, v)) ==> Clean(x)
  {
  }

  predicate Expected(x: Lane, v: Who, m: Msg) {
    x.done <= End(x) && m == if x.done == 0 then Handshake(Other(v)) else Bitfield(Other(v))
  }

  lemma {:induction false} TrackTake(x: Lane, v: Who, msgs: seq<Msg>)
    requires OnTrack(x, v) && x.handler.Done? && x.got < |msgs| && Expected(x, v, msgs[x.got])
    ensures OnTrack(Handled(x, v, msgs), v)
  {
  }

  lemma {:induction false} TrackSection(x: Lane, v: Who, msgs: seq<Msg>)
    requires OnTrack(x, v) && !x.handler.Done?
    ensures OnTrack(Handled(x, v, msgs), v)
  {
    if x.done < REPLY {
      TrackHandshake(x, v, msgs);
    }
  }

  lemma {:induction false} TrackHandshake(x: Lane, v: Who, msgs: seq<Msg>)
    requires OnTrack(x, v) && 0 < x.done < REPLY
    ensures OnTrack(Handled(x, v, msgs), v)
  {
  }

  /** The life of a side that opened first, with the first Handshake on its way before anything arrived, told by the
      messages it is sent: a Handshake and a Bitfield, perhaps with a Handshake after them; two Handshakes, perhaps with
      a Bitfield after them; or a Bitfield and then a Handshake. */
  ghost predicate FirstOpener(y: Lane, w: Who, msgs: seq<Msg>) {
    var v := Other(w);
    && y.opening == Sent && y.placed == 0 && y.sent == 0
    && if msgs != [] && msgs[0] == Bitfield(v) then if y.knew then FirstBitfield(y, w) else BitfieldDropped(y, w)
       else if |msgs| > 1 && msgs[1] == Handshake(v) then TwoHandshakes(y, w)
       else OneHandshake(y, w)
  }

  /** Up to the reply to the first Handshake handled, `n` messages and steps having come before. */
  ghost predicate ToReply(y: Lane, w: Who, n: nat) {
    var v, d := Other(w), y.done - n;
    && 0 <= d <= REPLY && y.got == (if d == 0 then n else n + 1) && y.known == (y.knew || d > 0)
    && y.out == [Handshake(w)] + (if d < REPLY then [] else [Bitfield(w)])
    && y.entry == (if d < RECORD then Placeholder(w) else Pending(v, true))
    && y.handler == if d == 1 then FindPipeline(v) else if d == 2 then ReadOutbound(v)
                    else if d == READ_OUTBOUND then Record(v, true) else if d == RECORD then Reply(true) else Done
  }

  ghost predicate OneHandshake(y: Lane, w: Who) {
    var v := Other(w);
    if y.done <= REPLY then ToReply(y, w, 0)
    else
      && y.out == [Handshake(w), Bitfield(w)] && y.got == (if y.done <= ACTIVATE then 2 else 3) && y.done <= 11
      && y.entry == (if y.done < ACTIVATE then Pending(v, true) else Active(v, v)) && y.known
      && y.handler == if y.done == 6 then ReadSelf(v) else if y.done == READ_SELF then ReadId(v, true)
                      else if y.done == READ_ID then Activate(v, true, v)
                      else if y.done == 10 then FindPipeline(v) else Done
  }

  ghost predicate TwoHandshakes(y: Lane, w: Who) {
    var v := Other(w);
    if y.done <= REPLY then ToReply(y, w, 0)
    else
      && y.done <= 14 && y.got == (if y.done <= 10 then 2 else 3) && y.known
      && y.out == [Handshake(w), Bitfield(w)] + (if y.done < 10 then [] else [Bitfield(w)])
      && y.entry == (if y.done < 14 then Pending(v, true) else Active(v, v))
      && y.handler == if y.done == 6 then FindPipeline(v) else if y.done == 7 then ReadOutbound(v)
                      else if y.done == 8 then Record(v, true) else if y.done == 9 then Reply(true)
                      else if y.done == 11 then ReadSelf(v) else if y.done == 12 then ReadId(v, true)
                      else if y.done == 13 then Activate(v, true, v) else Done
  }

  /** The Bitfield comes first, from a peer known from before: our own id is taken for the peer's. */
  ghost predicate FirstBitfield(y: Lane, w: Who) {
    var v := Other(w);
    && y.done <= 6 && y.out == [Handshake(w)] && y.got == (if y.done == 0 then 0 else if y.done <= 4 then 1 else 2)
    && y.entry == (if y.done < 4 then Placeholder(w) else Active(w, v)) && y.known
    && y.handler == if y.done == 1 then ReadSelf(v) else if y.done == 2 then ReadId(v, true)
                    else if y.done == 3 then Activate(v, true, w) else if y.done == 5 then FindPipeline(v) else Done
  }

  /** On first contact it is dropped. */
  ghost predicate BitfieldDropped(y: Lane, w: Who) {
    if y.done == 0 then ToReply(y, w, 0) else ToReply(y, w, 1)
  }

  /** What such a side can be sent. */
  ghost predicate Sendable(msgs: seq<Msg>, v: Who) {
    var h, b := Handshake(v), Bitfield(v);
    msgs <= [h, b, h] || msgs <= [h, h, b] || msgs <= [b, h]
  }

  lemma {:induction false} FirstOpenerHandles(y: Lane, w: Who, msgs: seq<Msg>)
    requires FirstOpener(y, w, msgs) && Sendable(msgs, Other(w)) && CanHandle(y, msgs)
    ensures FirstOpener(Handled(y, w, msgs), w, msgs)
  {
  }

  lemma {:induction false} FirstOpenerWaits(y: Lane, w: Who, msgs: seq<Msg>, more: seq<Msg>)
    requires FirstOpener(y, w, msgs) && y.got <= |msgs| && msgs <= more && Sendable(more, Other(w))
    ensures FirstOpener(y, w, more)
  {
  }

  /** A side that was handed a message before its own Handshake went out was handed it by a first opener. */
  ghost predicate Follows(x: Lane, y: Lane) {
    && x.got <= |y.out| && x.done <= End(x)
    && (x.done > 0 && (x.opening != Sent || x.sent > 0) ==> y.opening == Sent && y.placed == 0 && y.sent == 0)
  }

  ghost predicate BothClean(x: Lane, y: Lane, v: Who) {
    OnTrack(x, v) && OnTrack(y, Other(v)) && Clean(x) && Clean(y) && Follows(x, y) && Follows(y, x)
  }

  /** Lane `v` let its opening and its handlers overlap; the other side opened first. */
  ghost predicate Overlapping(x: Lane, y: Lane, v: Who) {
    && OnTrack(x, v) && !Clean(x) && FirstOpener(y, Other(v), x.out)
    && x.got <= |y.out| && y.got <= |x.out|
  }

  /** The invariant, seen from side `v`. */
  ghost predicate PairInv(x: Lane, y: Lane, v: Who) {
    BothClean(x, y, v) || Overlapping(x, y, v)
  }

  lemma {:induction false} CleanSends(x: Lane, v: Who)
    requires OnTrack(x, v) && Clean(x) && x.done <= End(x)
    ensures x.out <= [Handshake(v), Bitfield(v)]
    ensures x.opening == Sent && x.placed == 0 && x.sent == 0 ==> OneHandshake(x, v)
    ensures x.opening != Sent && x.done < REPLY ==> x.out == []
  {
  }

  lemma {:induction false} CleanOpens(x: Lane, y: Lane, v: Who)
    requires BothClean(x, y, v) && CanOpen(x.opening, x.entry)
    ensures PairInv(Opened(x, v), y, v)
  {
    TrackOpen(x, v);
    CleanSends(x, v);
    CleanSends(y, Other(v));
  }

  lemma {:induction false} CleanHandles(x: Lane, y: Lane, v: Who)
    requires BothClean(x, y, v) && CanHandle(x, y.out)
    ensures PairInv(Handled(x, v, y.out), y, v)
  {
    var z := Handled(x, v, y.out);
    CleanSends(x, v);
    CleanSends(y, Other(v));
    if x.handler.Done? { TrackTake(x, v, y.out); } else { TrackSection(x, v, y.out); }
  }

  lemma {:induction false} TrackSends(x: Lane, v: Who)
    requires OnTrack(x, v)
    ensures Sendable(x.out, v)
  {
  }

  lemma {:induction false} StaysUnclean(x: Lane, v: Who, msgs: seq<Msg>)
    requires OnTrack(x, v) && !Clean(x)
    ensures CanOpen(x.opening, x.entry) ==> !Clean(Opened(x, v))
    ensures CanHandle(x, msgs) ==> !Clean(Handled(x, v, msgs))
  {
  }

  lemma {:induction false} OverlappingOpens(x: Lane, y: Lane, v: Who)
    requires Overlapping(x, y, v) && CanOpen(x.opening, x.entry)
    ensures Overlapping(Opened(x, v), y, v)
  {
    OpensBeforeThird(x, y, v);
    TrackOpen(x, v);
    TrackSends(Opened(x, v), v);
    StaysUnclean(x, v, []);
    FirstOpenerWaits(y, Other(v), x.out, Opened(x, v).out);
  }

  lemma {:induction false} OpensBeforeThird(x: Lane, y: Lane, v: Who)
    requires Overlapping(x, y, v)
    ensures CanOpen(x.opening, x.entry) ==> x.done <= End(x)
    ensures x.handler.Done? && x.got < |y.out| ==> Expected(x, v, y.out[x.got])
  {
  }

  lemma {:induction false} HandlingGrows(x: Lane, v: Who, msgs: seq<Msg>)
    requires CanHandle(x, msgs) && x.got <= |msgs|
    ensures x.out <= Handled(x, v, msgs).out && Handled(x, v, msgs).got <= |msgs|
  {
  }

  lemma {:induction false} OverlappingTracks(x: Lane, y: Lane, v: Who)
    requires Overlapping(x, y, v) && CanHandle(x, y.out)
    ensures OnTrack(Handled(x, v, y.out), v)
  {
    OpensBeforeThird(x, y, v);
    if x.handler.Done? { TrackTake(x, v, y.out); } else { TrackSection(x, v, y.out); }
  }

  lemma {:induction false} OverlappingHandles(x: Lane, y: Lane, v: Who)
    requires Overlapping(x, y, v) && CanHandle(x, y.out)
    ensures Overlapping(Handled(x, v, y.out), y, v)
  {
    OverlappingTracks(x, y, v);
    HandlingGrows(x, v, y.out);
    StaysUnclean(x, v, y.out);
    TrackSends(Handled(x, v, y.out), v);
    FirstOpenerWaits(y, Other(v), x.out, Handled(x, v, y.out).out);
  }

  lemma {:induction false} FirstHandles(x: Lane, y: Lane, v: Who)
    requires Overlapping(x, y, v) && CanHandle(y, x.out)
    ensures Overlapping(x, Handled(y, Other(v), x.out), v)
  {
    TrackSends(x, v);
    FirstOpenerHandles(y, Other(v), x.out);
  }

  /** All but the last message taken up are dealt with. */
  ghost predicate InTurn(x: Side) {
    forall i :: 0 <= i < |x.handlers| - 1 ==> x.handlers[i].Done?
  }

  function LaneOf(x: Side): Lane {
    Lane(x.entry, x.opening, x.known, x.knew, if x.handlers == [] then Done else x.handlers[|x.handlers| - 1], x.out,
         |x.handlers|, x.done, x.placed, x.sent)
  }

  lemma {:induction false} LaneTake(x: Side, w: Who, msgs: seq<Msg>)
    requires AllDone(x) && |x.handlers| < |msgs|
    ensures InTurn(Takes(x, msgs[|x.handlers|]))
    ensures LaneOf(Takes(x, msgs[|x.handlers|])) == Handled(LaneOf(x), w, msgs)
  {
  }

  lemma {:induction false} LaneStep(x: Side, w: Who, i: nat, msgs: seq<Msg>)
    requires InTurn(x) && i < |x.handlers| && !x.handlers[i].Done?
    ensures InTurn(Steps(x, w, i)) && CanHandle(LaneOf(x), msgs)
    ensures LaneOf(Steps(x, w, i)) == Handled(LaneOf(x), w, msgs)
  {
    assert i == |x.handlers| - 1;
  }

  /** A message is taken up only when those before it are dealt with. */
  ghost predicate OneAtATime(s: Sys, act: Action) {
    act.Take? ==> AllDone(Get(s, act.who))
  }

  /** The invariant, from either side. */
  ghost predicate LanesOk(x: Lane, y: Lane, w: Who) {
    BothClean(x, y, w) || Overlapping(x, y, w) || Overlapping(y, x, Other(w))
  }

  lemma {:induction false} EitherSide(x: Lane, y: Lane, w: Who)
    ensures LanesOk(x, y, w) <==> LanesOk(y, x, Other(w))
  {
  }

  lemma {:induction false} LanesOpen(x: Lane, y: Lane, w: Who)
    requires LanesOk(x, y, w) && CanOpen(x.opening, x.entry)
    ensures LanesOk(Opened(x, w), y, w)
  {
    if BothClean(x, y, w) {
      CleanOpens(x, y, w);
    } else if Overlapping(x, y, w) {
      OverlappingOpens(x, y, w);
    }
  }

  lemma {:induction false} LanesHandle(x: Lane, y: Lane, w: Who)
    requires LanesOk(x, y, w) && CanHandle(x, y.out)
    ensures LanesOk(Handled(x, w, y.out), y, w)
  {
    if BothClean(x, y, w) {
      CleanHandles(x, y, w);
    } else if Overlapping(x, y, w) {
      OverlappingHandles(x, y, w);
    } else {
      FirstHandles(y, x, Other(w));
    }
  }

  ghost predicate SysInv(s: Sys) {
    InTurn(s.a) && InTurn(s.b) && LanesOk(LaneOf(s.a), LaneOf(s.b), A)
  }

  /** One side has made a step, the other none. */
  lemma {:induction false} SideMoved(s: Sys, w: Who, z: Side)
    requires SysInv(s) && InTurn(z) && LanesOk(LaneOf(z), LaneOf(Get(s, Other(w))), w)
    ensures SysInv(Put(s, w, z))
  {
    EitherSide(LaneOf(z), LaneOf(Get(s, Other(w))), w);
  }

  lemma {:induction false} SideOf(s: Sys, w: Who)
    requires SysInv(s)
    ensures InTurn(Get(s, w)) && LanesOk(LaneOf(Get(s, w)), LaneOf(Get(s, Other(w))), w)
  {
    EitherSide(LaneOf(s.a), LaneOf(s.b), A);
  }

  /** The lane of a side after a step of one of its tasks. */
  lemma {:induction false} LaneMoves(s: Sys, act: Action)
    requires InTurn(Get(s, act.who)) && Enabled(s, act) && OneAtATime(s, act)
    ensures var z := Get(Next(s, act), act.who);
            var x, msgs := LaneOf(Get(s, act.who)), Get(s, Other(act.who)).out;
            && InTurn(z) && Next(s, act) == Put(s, act.who, z)
            && if act.Open? then CanOpen(x.opening, x.entry) && LaneOf(z) == Opened(x, act.who)
               else CanHandle(x, msgs) && LaneOf(z) == Handled(x, act.who, msgs)
  {
    var x, y := Get(s, act.who), Get(s, Other(act.who));
    match act
    case Open(_) =>
    case Take(w) => LaneTake(x, w, y.out);
    case Step(w, i) => LaneStep(x, w, i, y.out);
  }

  /** Every step of every task on either side keeps the invariant, as long as messages are handled one at a time. */
  lemma {:induction false} StepKeeps(s: Sys, act: Action)
    requires SysInv(s) && Enabled(s, act) && OneAtATime(s, act)
    ensures SysInv(Next(s, act))
  {
    var w := act.who;
    var x, y, z := LaneOf(Get(s, w)), LaneOf(Get(s, Other(w))), Get(Next(s, act), w);
    SideOf(s, w);
    LaneMoves(s, act);
    if act.Open? { LanesOpen(x, y, w); } else { LanesHandle(x, y, w); }
    SideMoved(s, w, z);
  }

  lemma {:induction false} ProgressBound(s: Sys)
    requires SysInv(s)
    ensures Progress(s) <= 34
  {
  }

  lemma {:induction false} InitOk(a: bool, b: bool)
    ensures SysInv(Init(a, b))
  {
    assert OnTrack(LaneOf(Idle(a)), A) && OnTrack(LaneOf(Idle(b)), B);
  }

  ghost predicate AllOneAtATime(s: Sys, acts: seq<Action>)
    requires Legal(s, acts)
    decreases |acts|
  {
    acts == [] || (OneAtATime(s, acts[0]) && AllOneAtATime(Next(s, acts[0]), acts[1..]))
  }

  /** Every such run keeps the invariant and is over after at most 34 steps. */
  lemma {:induction false} RunKeeps(s: Sys, acts: seq<Action>)
    requires SysInv(s) && Legal(s, acts) && AllOneAtATime(s, acts)
    ensures SysInv(Run(s, acts)) && Progress(s) + |acts| == Progress(Run(s, acts)) <= 34
    decreases |acts|
  {
    if acts == [] {
      ProgressBound(s);
    } else {
      StepKeeps(s, acts[0]);
      StepProgress(s, acts[0]);
      RunKeeps(Next(s, acts[0]), acts[1..]);
    }
  }

  /** The placeholder was in time for the first read but our Handshake not for the reply: our Bitfield overtook it. */
  predicate Overtook(x: Lane) {
    x.opening == Sent && x.placed < READ_OUTBOUND && x.sent >= REPLY
  }

  /** Side `x` is left waiting: its Bitfield overtook its Handshake and was handled by a peer that knew it from before,
      or the other's overtook and was dropped on first contact; or its placeholder replaced the active entry and its
      Handshake went out after its Bitfield; or the other's placeholder came between recording `x` and reading who
      opened. */
  predicate LeftPending(x: Lane, y: Lane) {
    || (Overtook(x) && y.knew) || (Overtook(y) && !x.knew)
    || (x.opening == Sent && x.placed >= ACTIVATE && x.sent >= ANSWER)
    || (y.opening == Sent && RECORD <= y.placed < READ_SELF)
  }

  /** Side `x` is left with its own id: its placeholder came between recording the peer and reading the id, or after
      activating; or the other's Bitfield overtook its Handshake and was handled. */
  predicate LeftWithOwnId(x: Lane, y: Lane) {
    || (x.opening == Sent && (RECORD <= x.placed < READ_ID || x.placed >= ACTIVATE))
    || (Overtook(y) && x.knew)
  }

  ghost predicate Outcome(x: Lane, y: Lane, v: Who) {
    && (x.entry.Pending? || x.entry.Active?)
    && (x.entry.Pending? <==> LeftPending(x, y))
    && (x.entry.id == v <==> LeftWithOwnId(x, y))
    && (x.entry.Active? ==> x.entry.bits == Other(v))
  }

  ghost predicate Idling(x: Lane, y: Lane) {
    x.handler.Done? && x.got == |y.out| && !Underway(x.opening)
  }

  lemma {:induction false} SettledClean(x: Lane, y: Lane)
    requires BothClean(x, y, A) && Idling(x, y) && Idling(y, x) && (x.opening == Sent || y.opening == Sent)
    ensures x.entry == Active(B, B) && x.out == [Handshake(A), Bitfield(A)]
    ensures y.entry == Active(A, A) && y.out == [Handshake(B), Bitfield(B)]
    ensures Outcome(x, y, A) && Outcome(y, x, B)
  {
    CleanSends(x, A);
    CleanSends(y, B);
  }

  lemma {:induction false} SettledOverlapping(x: Lane, y: Lane, v: Who)
    requires Overlapping(x, y, v) && Idling(x, y) && Idling(y, x)
    ensures Outcome(x, y, v) && Outcome(y, x, Other(v)) && x.out != [Handshake(v), Bitfield(v)]
  {
  }

  lemma {:induction false} SomeoneOpened(a: Lane, b: Lane)
    requires LanesOk(a, b, A) && Idling(a, b) && Idling(b, a)
    requires a.opening != NotOpening || b.opening != NotOpening || a.done > 0 || b.done > 0
    ensures a.opening == Sent || b.opening == Sent
  {
  }

  /** The handshake, one-sided or simultaneous, on first contact or between peers known from before, with messages
      handled one at a time and the opening overlapping in any way. A run in which some side opened ends with both sides
      connected, after exactly two Handshakes and two Bitfields, exactly when each side's placeholder was in time for
      the first read and its Handshake for the reply. Which side hangs, and which keeps its own id for the peer's, is
      told by the steps its placeholder and its Handshake fell between. Every run ends within 34 steps. */
  lemma {:induction false} HandshakeOutcome(knewA: bool, knewB: bool, acts: seq<Action>)
    requires Legal(Init(knewA, knewB), acts) && AllOneAtATime(Init(knewA, knewB), acts) && acts != []
    requires Settled(Run(Init(knewA, knewB), acts))
    ensures var s := Run(Init(knewA, knewB), acts);
            var x, y := LaneOf(s.a), LaneOf(s.b);
            && |acts| <= 34
            && (Connected(s) <==> Clean(x) && Clean(y))
            && Outcome(x, y, A) && Outcome(y, x, B)
  {
    InitOk(knewA, knewB);
    RunKeeps(Init(knewA, knewB), acts);
    var s := Run(Init(knewA, knewB), acts);
    var x, y := LaneOf(s.a), LaneOf(s.b);
    assert Progress(s) > 0;
    SomeoneOpened(x, y);
    if BothClean(x, y, A) {
      SettledClean(x, y);
    } else if Overlapping(x, y, A) {
      SettledOverlapping(x, y, A);
    } else {
      SettledOverlapping(y, x, B);
    }
  }

  lemma {:induction false} OneAtATimeAfter(s: Sys, acts: seq<Action>, t: Sys, act: Action)
    requires Leads(s, acts, t) && AllOneAtATime(s, acts) && Enabled(t, act) && OneAtATime(t, act)
    ensures Leads(s, acts + [act], Next(t, act)) && AllOneAtATime(s, acts + [act])
    decreases |acts|
  {
    After(s, acts, t, act);
    if acts == [] {
      assert acts + [act] == [act] && [act][1..] == [];
    } else {
      OneAtATimeAfter(Next(s, acts[0]), acts[1..], t, act);
      assert (acts + [act])[1..] == acts[1..] + [act];
    }
  }

  /** A run of this kind, between sides known to each other from before or not, leads to the state. */
  ghost predicate Reachable(s: Sys) {
    exists acts :: Reaches(s, acts)
  }

  ghost predicate Reaches(s: Sys, acts: seq<Action>) {
    Leads(Init(s.a.knew, s.b.knew), acts, s) && AllOneAtATime(Init(s.a.knew, s.b.knew), acts)
  }

  lemma {:induction false} ReachableOk(s: Sys)
    requires Reachable(s)
    ensures SysInv(s) && Progress(s) <= 34
  {
    var acts :| Reaches(s, acts);
    InitOk(s.a.knew, s.b.knew);
    RunKeeps(Init(s.a.knew, s.b.knew), acts);
  }

  lemma {:induction false} StepReaches(s: Sys, act: Action)
    requires Reachable(s) && Enabled(s, act) && OneAtATime(s, act)
    ensures Reachable(Next(s, act)) && Progress(s) < Progress(Next(s, act)) <= 34
  {
    var acts :| Reaches(s, acts);
    OneAtATimeAfter(Init(s.a.knew, s.b.knew), acts, s, act);
    assert Reaches(Next(s, act), acts + [act]);
    StepProgress(s, act);
    ReachableOk(Next(s, act));
  }

  /** A side with something in hand can go on with it, one with a message to take up can take it up. */
  lemma {:induction false} HandleNext(s: Sys, w: Who) returns (act: Action)
    requires InTurn(Get(s, w)) && CanHandle(LaneOf(Get(s, w)), Get(s, Other(w)).out)
    ensures act.who == w && !act.Open? && Enabled(s, act) && OneAtATime(s, act)
  {
    var x := Get(s, w);
    act := if AllDone(x) then Take(w) else Step(w, |x.handlers| - 1);
  }

  lemma {:induction false} LaneIdle(x: Side)
    requires InTurn(x) && LaneOf(x).handler.Done?
    ensures AllDone(x)
  {
  }

  /** As long as something is under way, some step can be taken. */
  lemma {:induction false} NotStuck(s: Sys) returns (act: Action)
    requires InTurn(s.a) && InTurn(s.b) && !Settled(s)
    requires |s.a.handlers| <= |s.b.out| && |s.b.handlers| <= |s.a.out|
    ensures Enabled(s, act) && OneAtATime(s, act)
  {
    if Underway(s.a.opening) {
      act := Open(A);
    } else if Underway(s.b.opening) {
      act := Open(B);
    } else if CanHandle(LaneOf(s.a), s.b.out) {
      act := HandleNext(s, A);
    } else {
      LaneIdle(s.a);
      if LaneOf(s.b).handler.Done? { LaneIdle(s.b); }
      act := HandleNext(s, B);
    }
  }

  lemma {:induction false} TakenWereSent(s: Sys)
    requires SysInv(s)
    ensures |s.a.handlers| <= |s.b.out| && |s.b.handlers| <= |s.a.out|
  {
  }

  lemma {:induction false} FindStep(s: Sys) returns (act: Action)
    requires Reachable(s) && !Settled(s)
    ensures Enabled(s, act) && Reachable(Next(s, act)) && Progress(s) < Progress(Next(s, act)) <= 34
  {
    ReachableOk(s);
    TakenWereSent(s);
    act := NotStuck(s);
    StepReaches(s, act);
  }

  /** What a finished opening has recorded stays. */
  predicate SameOpening(s: Sys, t: Sys) {
    && t.a.knew == s.a.knew && t.b.knew == s.b.knew
    && (s.b.opening == Sent ==> t.b.opening == Sent && t.b.placed == s.b.placed && t.b.sent == s.b.sent)
  }

  lemma {:induction false} StepKeepsOpening(s: Sys, act: Action)
    requires Enabled(s, act)
    ensures SameOpening(s, Next(s, act))
  {
  }

  /** Every run can be finished. */
  lemma {:induction false} CanFinish(s: Sys) returns (t: Sys)
    requires Reachable(s)
    ensures Reachable(t) && Settled(t) && SameOpening(s, t)
    decreases 34 - Progress(s)
  {
    if Settled(s) {
      t := s;
    } else {
      var act := FindStep(s);
      StepKeepsOpening(s, act);
      t := CanFinish(Next(s, act));
    }
  }

  /** How many steps a side can get through with its opening where it is. */
  function Reach(x: Lane): nat {
    if FoundPlaceholder(x) then REPLY else End(x)
  }

  predicate MidOpening(s: Sys) {
    s.a.opening == Sent && Underway(s.b.opening)
  }

  lemma {:induction false} CanAdvance(s: Sys, k: nat)
    requires SysInv(s) && MidOpening(s) && s.b.done < k <= Reach(LaneOf(s.b))
    ensures CanHandle(LaneOf(s.b), s.a.out) || CanHandle(LaneOf(s.a), s.b.out)
  {
  }

  /** What handling leaves of a side whose opening is under way. */
  predicate SameMid(s: Sys, t: Sys) {
    && t.a.knew == s.a.knew && t.b.knew == s.b.knew && t.a.opening == s.a.opening
    && t.b.opening == s.b.opening && t.b.placed == s.b.placed
  }

  lemma {:induction false} HandlingKeepsMid(s: Sys, act: Action)
    requires Enabled(s, act) && !act.Open?
    ensures SameMid(s, Next(s, act)) && s.b.done <= Next(s, act).b.done <= s.b.done + 1
    ensures Reach(LaneOf(Next(s, act).b)) == Reach(LaneOf(s.b))
  {
  }

  lemma {:induction false} FindSection(s: Sys, k: nat) returns (act: Action)
    requires Reachable(s) && MidOpening(s) && s.b.done < k <= Reach(LaneOf(s.b))
    ensures !act.Open? && Enabled(s, act)
    ensures Reachable(Next(s, act)) && Progress(s) < Progress(Next(s, act)) <= 34
  {
    ReachableOk(s);
    CanAdvance(s, k);
    if CanHandle(LaneOf(s.b), s.a.out) { act := HandleNext(s, B); } else { act := HandleNext(s, A); }
    StepReaches(s, act);
  }

  /** Side B, its opening under way, can be brought to `k` steps by handling alone. */
  lemma {:induction false} HandleUpTo(s: Sys, k: nat) returns (t: Sys)
    requires Reachable(s) && MidOpening(s) && s.b.done <= k <= Reach(LaneOf(s.b))
    ensures Reachable(t) && SameMid(s, t) && t.b.done == k
    decreases 34 - Progress(s)
  {
    if s.b.done == k {
      t := s;
    } else {
      var act := FindSection(s, k);
      HandlingKeepsMid(s, act);
      t := HandleUpTo(Next(s, act), k);
    }
  }

  lemma {:induction false} BeginBoth(knewA: bool, knewB: bool) returns (t: Sys)
    ensures Reachable(t) && MidOpening(t) && t.b.opening == Started && t.b.done == 0
    ensures t.a.knew == knewA && t.b.knew == knewB
  {
    var s0 := Init(knewA, knewB);
    assert Reaches(s0, []);
    var s1 := Next(s0, Open(A));
    StepReaches(s0, Open(A));
    var s2 := Next(s1, Open(A));
    StepReaches(s1, Open(A));
    var s3 := Next(s2, Open(A));
    StepReaches(s2, Open(A));
    t := Next(s3, Open(B));
    StepReaches(s3, Open(B));
  }

  /** Every case of the outcome occurs: side B's placeholder can come after any `p` steps of its handlers and its
      Handshake after any `q` steps, as far as the messages it is sent allow, whether or not the sides knew each
      other. */
  lemma {:induction false} EveryCaseOccurs(p: nat, q: nat, knewA: bool, knewB: bool) returns (t: Sys)
    requires p <= q <= ANSWER && (p < READ_OUTBOUND ==> q <= REPLY) && (RECORD <= p < READ_SELF ==> q <= ACTIVATE)
    ensures Reachable(t) && Settled(t) && t.b.opening == Sent && t.b.placed == p && t.b.sent == q
    ensures t.a.knew == knewA && t.b.knew == knewB
  {
    var s := BeginBoth(knewA, knewB);
    s := HandleUpTo(s, p);
    StepReaches(s, Open(B));
    s := Next(s, Open(B));
    s := HandleUpTo(s, q);
    StepReaches(s, Open(B));
    t := CanFinish(Next(s, Open(B)));
  }
}
