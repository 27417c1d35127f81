/** The peer-wire handshake between two clients of one torrent. Every step is one lock section, or one send, of a side's
    opening task or of one of its message handlers. Messages are taken up in the order they were sent, but each by a
    task of its own, so that the opening and any number of handlers of a side run at the same time. */
module Handshake {
  import opened Bytes

  /** The two parties; each stands for its own peer id and its own bitfield. */
  datatype Who = A | B

  function Other(w: Who): Who { if w == A then B else A }

  datatype Msg = Handshake(id: Who) | Bitfield(bits: Who)

  /** What a session's peers map holds for the other side. */
  datatype Entry = Absent | Connecting | Pending(id: Who, weInitiated: bool) | Active(id: Who, bits: Who)

  /** `is_pending_outbound`. */
  predicate Outbound(entry: Entry) {
    entry.Pending? && entry.weInitiated
  }

  /** The mark of `add_discovered_peers`: only an unknown address is dialled. */
  function Marked(entry: Entry): Entry {
    if entry.Absent? then Connecting else entry
  }

  /** The placeholder carries our own id. */
  function Placeholder(own: Who): Entry {
    Pending(own, true)
  }

  /** A whole `handle_handshake` with nothing in between: the new entry and the message sent back, if any. */
  function OnHandshake(entry: Entry, own: Who, id: Who): (Entry, seq<Msg>) {
    if entry.Active? then (entry, [])
    else if !Outbound(entry) then (Pending(id, false), [Handshake(own)])
    else (Pending(id, true), [Bitfield(own)])
  }

  /** A whole `handle_bitfield`. */
  function OnBitfield(entry: Entry, own: Who, bits: Who): (Entry, seq<Msg>) {
    if !entry.Pending? then (entry, [])
    else (Active(entry.id, bits), if entry.weInitiated then [] else [Bitfield(own)])
  }

  /** `SessionManager::dispatch`: a Handshake makes its source known, any other message of an unknown source is
      dropped. */
  function Dispatched(known: bool, m: Msg): (bool, bool) {
    (known || m.Handshake?, known || m.Handshake?)
  }

  /** The `by_peer` map of the session manager. */
  class SessionManager {
    var byPeer: set<int>

    constructor ()
      ensures byPeer == {}
    {
      byPeer := {};
    }

    method Dispatch(source: int, m: Msg) returns (handled: bool)
      modifies this
      ensures (source in byPeer, handled) == Dispatched(source in old(byPeer), m)
      ensures forall a :: a != source ==> (a in byPeer <==> a in old(byPeer))
    {
      if m.Handshake? {
        byPeer := byPeer + {source};
        return true;
      }
      handled := source in byPeer;
    }
  }

  /** A session's peers map. Each method up to `InsertPipeline` is one lock section; the two handlers are made of
      them. */
  class BepSession {
    var peers: map<int, Entry>
    const own: Who

    function At(source: int): Entry
      reads this
    {
      if source in peers then peers[source] else Absent
    }

    constructor (own: Who)
      ensures peers == map[] && this.own == own
    {
      peers, this.own := map[], own;
    }

    method Discover(addr: int) returns (dial: bool)
      modifies this
      ensures dial <==> old(At(addr)).Absent?
      ensures At(addr) == Marked(old(At(addr)))
      ensures forall a :: a != addr ==> At(a) == old(At(a))
    {
      dial := At(addr).Absent?;
      if dial { peers := peers[addr := Connecting]; }
    }

    /** `handshake`, up to the send. */
    method InsertOutbound(addr: int) returns (message: Msg)
      modifies this
      ensures At(addr) == Placeholder(own) && message == Handshake(own)
      ensures forall a :: a != addr ==> At(a) == old(At(a))
    {
      InsertPending(addr, own, true);
      message := Handshake(own);
    }

    method InsertPending(addr: int, id: Who, weInitiated: bool)
      modifies this
      ensures At(addr) == Pending(id, weInitiated)
      ensures forall a :: a != addr ==> At(a) == old(At(a))
    {
      peers := peers[addr := Pending(id, weInitiated)];
    }

    method InsertPipeline(addr: int, id: Who, bits: Who)
      modifies this
      ensures At(addr) == Active(id, bits)
      ensures forall a :: a != addr ==> At(a) == old(At(a))
    {
      peers := peers[addr := Active(id, bits)];
    }

    method HandleHandshake(source: int, id: Who) returns (reply: seq<Msg>)
      modifies this
      ensures (At(source), reply) == OnHandshake(old(At(source)), own, id)
      ensures forall addr :: addr != source ==> At(addr) == old(At(addr))
    {
      if At(source).Active? {
        return [];
      }
      if !Outbound(At(source)) {
        InsertPending(source, id, false);
        return [Handshake(own)];
      }
      InsertPending(source, id, true);
      return [Bitfield(own)];
    }

    method HandleBitfield(source: int, bits: Who) returns (reply: seq<Msg>)
      modifies this
      ensures (At(source), reply) == OnBitfield(old(At(source)), own, bits)
      ensures forall addr :: addr != source ==> At(addr) == old(At(addr))
    {
      var selfInit := Outbound(At(source));
      if !At(source).Pending? {
        return [];
      }
      InsertPipeline(source, At(source).id, bits);
      reply := if selfInit then [] else [Bitfield(own)];
    }
  }

  /** Where a side's own opening stands: its three steps are the Connecting mark, the placeholder, the send. */
  datatype Opening = NotOpening | Started | Inserted | Sent

  /** What the handler of a message does next. `handle_handshake`: look for a pipeline, read whether we opened, record
      the peer, reply. `handle_bitfield`: read whether we opened, read the recorded id, activate, answer. */
  datatype Handler =
    | FindPipeline(id: Who)
    | ReadOutbound(id: Who)
    | Record(id: Who, outbound: bool)
    | Reply(outbound: bool)
    | ReadSelf(bits: Who)
    | ReadId(bits: Who, outbound: bool)
    | Activate(bits: Who, outbound: bool, id: Who)
    | Answer
    | Done

  function Begun(m: Msg): Handler {
    match m case Handshake(id) => FindPipeline(id) case Bitfield(bits) => ReadSelf(bits)
  }

  /** One section of a handler: the entry and the handler afterwards, and the message sent, if any. */
  function Section(entry: Entry, h: Handler, own: Who): (Entry, Handler, Option<Msg>) {
    match h
    case FindPipeline(id) => (entry, if entry.Active? then Done else ReadOutbound(id), None)
    case ReadOutbound(id) => (entry, Record(id, Outbound(entry)), None)
    case Record(id, outbound) => (Pending(id, outbound), Reply(outbound), None)
    case Reply(outbound) => (entry, Done, Some(if outbound then Bitfield(own) else Handshake(own)))
    case ReadSelf(bits) => (entry, ReadId(bits, Outbound(entry)), None)
    case ReadId(bits, outbound) =>
      (entry, if entry.Pending? then Activate(bits, outbound, entry.id) else Done, None)
    case Activate(bits, outbound, id) => (Active(id, bits), if outbound then Done else Answer, None)
    case Answer => (entry, Done, Some(Bitfield(own)))
    case Done => (entry, Done, None)
  }

  function Push(out: seq<Msg>, m: Option<Msg>): seq<Msg> {
    match m case None => out case Some(msg) => out + [msg]
  }

  /** Running a handler to its end with nothing in between. */
  function Finished(entry: Entry, h: Handler, own: Who, out: seq<Msg>, sections: nat): (Entry, seq<Msg>)
    decreases sections
  {
    if sections == 0 || h.Done? then (entry, out)
    else
      var (e, g, m) := Section(entry, h, own);
      Finished(e, g, own, Push(out, m), sections - 1)
  }

  /** It then does what the whole handler does. */
  lemma {:induction false} UninterruptedHandler(entry: Entry, own: Who, m: Msg, out: seq<Msg>, n: nat)
    requires n >= 4
    ensures var (e, reply) := match m
              case Handshake(id) => OnHandshake(entry, own, id)
              case Bitfield(bits) => OnBitfield(entry, own, bits);
            Finished(entry, Begun(m), own, out, n) == (e, out + reply)
  {
    var (e1, h1, m1) := Section(entry, Begun(m), own);
    var (e2, h2, m2) := Section(e1, h1, own);
    var (e3, h3, m3) := Section(e2, h2, own);
    var (e4, h4, m4) := Section(e3, h3, own);
    assert Finished(entry, Begun(m), own, out, n) == Finished(e1, h1, own, out, n - 1);
    if !h1.Done? {
      assert Finished(e1, h1, own, out, n - 1) == Finished(e2, h2, own, out, n - 2);
      if !h2.Done? {
        assert Finished(e2, h2, own, out, n - 2) == Finished(e3, h3, own, out, n - 3);
        if !h3.Done? {
          assert Finished(e3, h3, own, out, n - 3) == Finished(e4, h4, own, Push(out, m4), n - 4);
        }
      }
    }
    assert out + [] == out;
  }

  /** The last write to a side's entry: none, the placeholder, a recording, or an activation with an id read from the
      placeholder or not. */
  datatype Write = Nothing | OwnPlaceholder | Recording | Activation(ownId: bool)

  /** One side: its entry for the other; its opening; whether its session manager knows the other, and knew it from
      before; a handler for every message of the other taken up; everything it has sent. Counters tell which steps
      overlap: `done` handler steps so far, and how many had been done when the placeholder was `placed` and when our
      Handshake was `sent`; and how many sections of the first handler had been done when the second read the peer's id
      and when it activated. `last` is the last write to the entry. */
  datatype Side = Side(entry: Entry, opening: Opening, known: bool, knew: bool, handlers: seq<Handler>, out: seq<Msg>,
                       done: nat, placed: nat, sent: nat, readAt: nat, activeAt: nat, last: Write)

  datatype Sys = Sys(a: Side, b: Side)

  function Get(s: Sys, w: Who): Side { if w == A then s.a else s.b }

  function Put(s: Sys, w: Who, x: Side): Sys { if w == A then s.(a := x) else s.(b := x) }

  const SECTIONS: nat := 4

  function Idle(knew: bool): Side {
    Side(Absent, NotOpening, knew, knew, [], [], 0, 0, 0, SECTIONS, SECTIONS, Nothing)
  }

  /** Two sides at the start, each with or without the other known from before. */
  function Init(a: bool, b: bool): Sys {
    Sys(Idle(a), Idle(b))
  }

  datatype Action = Open(who: Who) | Take(who: Who) | Step(who: Who, handler: nat)

  predicate CanOpen(opening: Opening, entry: Entry) {
    opening == Started || opening == Inserted || (opening == NotOpening && entry == Absent)
  }

  predicate Enabled(s: Sys, act: Action) {
    var x := Get(s, act.who);
    match act
    case Open(_) => CanOpen(x.opening, x.entry)
    case Take(w) => |x.handlers| < |Get(s, Other(w)).out|
    case Step(_, i) => i < |x.handlers| && !x.handlers[i].Done?
  }

  function Opens(x: Side, w: Who): Side {
    match x.opening
    case NotOpening => x.(entry := Marked(x.entry), opening := Started)
    case Started => x.(entry := Placeholder(w), opening := Inserted, placed := x.done, last := OwnPlaceholder)
    case Inserted => x.(out := x.out + [Handshake(w)], opening := Sent, sent := x.done)
    case Sent => x
  }

  function Takes(x: Side, m: Msg): Side {
    var (known, handled) := Dispatched(x.known, m);
    x.(known := known, handlers := x.handlers + [if handled then Begun(m) else Done], done := x.done + 1)
  }

  /** Sections done by the handler of a Handshake. */
  function SectionsDone(h: Handler): nat {
    match h
    case FindPipeline(_) => 0
    case ReadOutbound(_) => 1
    case Record(_, _) => 2
    case Reply(_) => 3
    case _ => SECTIONS
  }

  function Steps(x: Side, w: Who, i: nat): Side
    requires i < |x.handlers|
  {
    var h, first := x.handlers[i], SectionsDone(x.handlers[0]);
    var (entry, next, m) := Section(x.entry, h, w);
    x.(entry := entry, handlers := x.handlers[i := next], out := Push(x.out, m), done := x.done + 1,
       readAt := if i == 1 && h.ReadId? && next.Activate? then first else x.readAt,
       activeAt := if i == 1 && h.Activate? then first else x.activeAt,
       last := if h.Record? then Recording else if h.Activate? then Activation(h.id == w) else x.last)
  }

  function Next(s: Sys, act: Action): Sys
    requires Enabled(s, act)
  {
    var x := Get(s, act.who);
    match act
    case Open(w) => Put(s, w, Opens(x, w))
    case Take(w) => Put(s, w, Takes(x, Get(s, Other(w)).out[|x.handlers|]))
    case Step(w, i) => Put(s, w, Steps(x, w, i))
  }

  ghost predicate Legal(s: Sys, acts: seq<Action>)
    decreases |acts|
  {
    acts == [] || (Enabled(s, acts[0]) && Legal(Next(s, acts[0]), acts[1..]))
  }

  function Run(s: Sys, acts: seq<Action>): Sys
    requires Legal(s, acts)
    decreases |acts|
  {
    if acts == [] then s else Run(Next(s, acts[0]), acts[1..])
  }

  /** Steps taken so far: three per opening, and the handler steps. */
  function Progress(s: Sys): nat {
    Rank(s.a.opening) + Rank(s.b.opening) + s.a.done + s.b.done
  }

  function Rank(o: Opening): nat {
    match o case NotOpening => 0 case Started => 1 case Inserted => 2 case Sent => 3
  }

  lemma {:induction false} StepProgress(s: Sys, act: Action)
    requires Enabled(s, act)
    ensures Progress(Next(s, act)) == Progress(s) + 1
  {
  }

  predicate Underway(o: Opening) {
    o == Started || o == Inserted
  }

  ghost predicate AllDone(x: Side) {
    forall i :: 0 <= i < |x.handlers| ==> x.handlers[i].Done?
  }

  /** Nothing is under way: no opening unfinished, every message taken up and dealt with. */
  ghost predicate Settled(s: Sys) {
    && |s.a.handlers| == |s.b.out| && |s.b.handlers| == |s.a.out| && AllDone(s.a) && AllDone(s.b)
    && !Underway(s.a.opening) && !Underway(s.b.opening)
  }

  /** Both sides hold the other's id and bitfield, after one Handshake and one Bitfield each. */
  predicate Connected(s: Sys) {
    && s.a.entry == Active(B, B) && s.a.out == [Handshake(A), Bitfield(A)]
    && s.b.entry == Active(A, A) && s.b.out == [Handshake(B), Bitfield(B)]
  }

  /** What a side sends, holds and has in hand carries the other's id or its own, and its entry is what was written
      last. */
  ghost predicate SideOk(x: Side, w: Who) {
    && (forall i :: 0 <= i < |x.out| ==> x.out[i] == Handshake(w) || x.out[i] == Bitfield(w))
    && (forall i :: 0 <= i < |x.handlers| ==> HandlerOk(x.handlers[i], w))
    && EntryOk(x.entry, w, x.last)
  }

  predicate HandlerOk(h: Handler, w: Who) {
    match h
    case FindPipeline(id) => id == Other(w)
    case ReadOutbound(id) => id == Other(w)
    case Record(id, _) => id == Other(w)
    case ReadSelf(bits) => bits == Other(w)
    case ReadId(bits, _) => bits == Other(w)
    case Activate(bits, _, _) => bits == Other(w)
    case _ => true
  }

  predicate EntryOk(entry: Entry, w: Who, last: Write) {
    match last
    case Nothing => entry == Absent || entry == Connecting
    case OwnPlaceholder => entry == Placeholder(w)
    case Recording => entry.Pending? && entry.id == Other(w)
    case Activation(own) => entry == Active(if own then w else Other(w), Other(w))
  }

  lemma {:induction false} OpensOk(x: Side, w: Who)
    requires SideOk(x, w) && CanOpen(x.opening, x.entry)
    ensures SideOk(Opens(x, w), w)
  {
  }

  lemma {:induction false} StepsOk(x: Side, w: Who, i: nat)
    requires SideOk(x, w) && i < |x.handlers|
    ensures SideOk(Steps(x, w, i), w)
  {
    assert HandlerOk(x.handlers[i], w);
    assert HandlerOk(Section(x.entry, x.handlers[i], w).1, w);
  }

  lemma {:induction false} SideKeeps(s: Sys, act: Action)
    requires Enabled(s, act) && SideOk(s.a, A) && SideOk(s.b, B)
    ensures SideOk(Next(s, act).a, A) && SideOk(Next(s, act).b, B)
  {
    var w := act.who;
    var x, y := Get(s, w), Get(s, Other(w));
    assert SideOk(x, w) && SideOk(y, Other(w));
    match act
    case Open(_) => OpensOk(x, w);
    case Take(_) => assert HandlerOk(Begun(y.out[|x.handlers|]), w);
    case Step(_, i) => StepsOk(x, w, i);
  }

  lemma {:induction false} SidesStay(s: Sys, acts: seq<Action>)
    requires Legal(s, acts) && SideOk(s.a, A) && SideOk(s.b, B)
    ensures SideOk(Run(s, acts).a, A) && SideOk(Run(s, acts).b, B)
    decreases |acts|
  {
    if acts != [] {
      SideKeeps(s, acts[0]);
      SidesStay(Next(s, acts[0]), acts[1..]);
    }
  }

  /** Over every run from the start, whatever overlaps: a side's entry is Pending exactly when the placeholder or a
      recording was the last write to it, Active exactly when an activation was, and it holds the side's own id exactly
      when the placeholder was, or an activation whose id had been read from the placeholder; an active entry has the
      other's bitfield. */
  lemma {:induction false} LastWriteDecides(knewA: bool, knewB: bool, acts: seq<Action>, w: Who)
    requires Legal(Init(knewA, knewB), acts)
    ensures var x := Get(Run(Init(knewA, knewB), acts), w);
            && (x.entry.Pending? <==> x.last.OwnPlaceholder? || x.last.Recording?)
            && (x.entry.Active? <==> x.last.Activation?)
            && (x.entry.Pending? || x.entry.Active? ==>
                  (x.entry.id == w <==> x.last == OwnPlaceholder || x.last == Activation(true)))
            && (x.entry.Active? ==> x.entry.bits == Other(w))
  {
    SidesStay(Init(knewA, knewB), acts);
    assert SideOk(Get(Run(Init(knewA, knewB), acts), w), w);
  }

  ghost predicate Leads(s: Sys, acts: seq<Action>, t: Sys) {
    Legal(s, acts) && Run(s, acts) == t
  }

  /** One more step after a run. */
  lemma {:induction false} After(s: Sys, acts: seq<Action>, t: Sys, act: Action)
    requires Leads(s, acts, t) && Enabled(t, act)
    ensures Leads(s, acts + [act], Next(t, act))
    decreases |acts|
  {
    if acts == [] {
      assert [act][1..] == [];
      assert acts + [act] == [act];
    } else {
      After(Next(s, acts[0]), acts[1..], t, act);
      assert (acts + [act])[1..] == acts[1..] + [act];
    }
  }
}
