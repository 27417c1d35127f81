/** The per-peer request pipeline of a download, and every run of its message handlers. */
module Pipeline {
  import opened Bytes
  import opened BitField

  const MAX_PIPELINE: nat := 128

  /** The pieces below `n` the peer has and we lack, in ascending order. */
  function Wanted(peer: set<nat>, ours: set<nat>, n: nat): seq<nat> {
    if n == 0 then []
    else Wanted(peer, ours, n - 1) + if n - 1 in peer && n - 1 !in ours then [n - 1] else []
  }

  lemma {:induction false} WantedExact(peer: set<nat>, ours: set<nat>, n: nat)
    ensures Ascending(Wanted(peer, ours, n))
    ensures forall i: nat :: i in Wanted(peer, ours, n) <==> i < n && i in peer && i !in ours
  {
    if n > 0 {
      WantedExact(peer, ours, n - 1);
      var w := Wanted(peer, ours, n - 1);
      assert forall i :: 0 <= i < |w| ==> w[i] in w;
    }
  }

  /** Two ascending sequences with the same elements are the same. */
  lemma {:induction false} AscendingUnique(s: seq<nat>, t: seq<nat>)
    requires Ascending(s) && Ascending(t) && forall i: nat :: i in s <==> i in t
    ensures s == t
  {
    if s == [] {
      assert t == [] by { assert forall i :: 0 <= i < |t| ==> t[i] in t; }
    } else {
      assert s[0] in s;
      assert t[0] in t;
      assert s[0] in t && t[0] in s;
      forall i: nat ensures i in s[1..] <==> i in t[1..] {
        assert i in s <==> i == s[0] || i in s[1..];
        assert i in t <==> i == t[0] || i in t[1..];
      }
      AscendingUnique(s[1..], t[1..]);
      assert s == [s[0]] + s[1..] && t == [t[0]] + t[1..];
    }
  }

  /** The packed difference lists the wanted pieces. */
  lemma {:induction false} DifferenceIsWanted(a: Bits, b: Bits)
    requires a.pieceCount == b.pieceCount
    ensures Difference(a, b) == Wanted(Pieces(a), Pieces(b), a.pieceCount)
  {
    DifferenceIsSetDifference(a, b);
    WantedExact(Pieces(a), Pieces(b), a.pieceCount);
    AscendingUnique(Difference(a, b), Wanted(Pieces(a), Pieces(b), a.pieceCount));
  }

  /** The pieces a fill asks for: the first `slots` of the wanted ones that are not already pending. */
  function NewRequests(wanted: seq<nat>, pending: set<nat>, slots: nat): seq<nat> {
    if wanted == [] || slots == 0 then []
    else if wanted[0] in pending then NewRequests(wanted[1..], pending, slots)
    else [wanted[0]] + NewRequests(wanted[1..], pending + {wanted[0]}, slots - 1)
  }

  lemma {:induction false} Unfold(wanted: seq<nat>, i: nat, pending: set<nat>, slots: nat)
    requires i < |wanted| && slots > 0
    ensures NewRequests(wanted[i..], pending, slots) ==
            if wanted[i] in pending then NewRequests(wanted[i + 1..], pending, slots)
            else [wanted[i]] + NewRequests(wanted[i + 1..], pending + {wanted[i]}, slots - 1)
  {
    assert wanted[i..][1..] == wanted[i + 1..];
  }

  function Elements(s: seq<nat>): set<nat> {
    set x | x in s
  }

  function Slots(pending: set<nat>): nat {
    Max(MAX_PIPELINE - |pending|, 0)
  }

  /** Asked pieces are wanted and not pending, and no more than there are slots. */
  lemma {:induction false} RequestsAreNew(wanted: seq<nat>, pending: set<nat>, slots: nat)
    ensures |NewRequests(wanted, pending, slots)| <= slots
    ensures forall x :: x in NewRequests(wanted, pending, slots) ==> x in wanted && x !in pending
    decreases |wanted|
  {
    if wanted != [] && slots > 0 {
      var w, rest := wanted[0], wanted[1..];
      var r := NewRequests(wanted, pending, slots);
      assert forall x :: x in rest ==> x in wanted;
      if w in pending {
        RequestsAreNew(rest, pending, slots);
        assert r == NewRequests(rest, pending, slots);
      } else {
        var t := NewRequests(rest, pending + {w}, slots - 1);
        RequestsAreNew(rest, pending + {w}, slots - 1);
        assert r == [w] + t;
        assert forall x :: x in r ==> x == w || x in t;
      }
    }
  }

  /** And all different. */
  lemma {:induction false} RequestsDistinct(wanted: seq<nat>, pending: set<nat>, slots: nat)
    ensures var r := NewRequests(wanted, pending, slots); forall i, j :: 0 <= i < j < |r| ==> r[i] != r[j]
    decreases |wanted|
  {
    if wanted != [] && slots > 0 {
      var w, rest := wanted[0], wanted[1..];
      var r := NewRequests(wanted, pending, slots);
      if w in pending {
        var t := NewRequests(rest, pending, slots);
        RequestsDistinct(rest, pending, slots);
        Unfold(wanted, 0, pending, slots);
        assert wanted[0..] == wanted;
      } else {
        var t := NewRequests(rest, pending + {w}, slots - 1);
        RequestsDistinct(rest, pending + {w}, slots - 1);
        RequestsAreNew(rest, pending + {w}, slots - 1);
        assert forall i :: 0 <= i < |t| ==> t[i] in t;
        assert r == [w] + t;
      }
    }
  }

  /** A fill uses every slot or leaves nothing wanted unasked. */
  lemma {:induction false} RequestsAreEnough(wanted: seq<nat>, pending: set<nat>, slots: nat)
    ensures var r := NewRequests(wanted, pending, slots);
            |r| == slots || forall x :: x in wanted ==> x in pending || x in r
    decreases |wanted|
  {
    if wanted != [] && slots > 0 {
      var w, rest := wanted[0], wanted[1..];
      assert forall x :: x in wanted <==> x == w || x in rest;
      if w in pending {
        RequestsAreEnough(rest, pending, slots);
      } else {
        RequestsAreEnough(rest, pending + {w}, slots - 1);
        var t := NewRequests(rest, pending + {w}, slots - 1);
        assert forall x :: x in [w] + t <==> x == w || x in t;
      }
    }
  }

  /** Lower pieces go first: what is neither pending nor asked lies above everything asked. */
  lemma {:induction false} LowestFirst(wanted: seq<nat>, pending: set<nat>, slots: nat, left: nat, asked: nat)
    requires Ascending(wanted) && left in wanted && left !in pending
    requires left !in NewRequests(wanted, pending, slots) && asked in NewRequests(wanted, pending, slots)
    ensures asked < left
    decreases |wanted|
  {
    var w, rest := wanted[0], wanted[1..];
    if w in pending {
      LowestFirst(rest, pending, slots, left, asked);
    } else {
      var t := NewRequests(rest, pending + {w}, slots - 1);
      assert NewRequests(wanted, pending, slots) == [w] + t && ([w] + t)[0] == w;
      if asked != w {
        LowestFirst(rest, pending + {w}, slots - 1, left, asked);
      }
    }
  }

  lemma {:induction false} DistinctSize(pending: set<nat>, r: seq<nat>)
    requires forall i, j :: 0 <= i < j < |r| ==> r[i] != r[j]
    requires forall x :: x in r ==> x !in pending
    ensures |pending + Elements(r)| == |pending| + |r|
    decreases |r|
  {
    if r == [] {
      assert pending + Elements(r) == pending;
    } else {
      var x, t := r[0], r[1..];
      assert x !in t && x !in pending;
      DistinctSize(pending + {x}, t);
      assert pending + Elements(r) == pending + {x} + Elements(t);
    }
  }

  class Pipeline {
    var peerBits: Bits
    var amInterested: bool
    var peerChoking: bool
    var pending: set<nat>

    constructor (peerBits: Bits)
      ensures this.peerBits == peerBits && pending == {}
      ensures peerChoking && !amInterested
    {
      this.peerBits, pending := peerBits, {};
      amInterested, peerChoking := false, true;
    }

    /** This peer as a state of the run model, with `ours` the session's pieces; nothing asked yet. */
    function View(ours: set<nat>): State
      reads this
    {
      State(peerBits.pieceCount, Pieces(peerBits), ours, peerChoking, pending, [])
    }

    /** `Pipeline::on_unchoke` and the fill that follows it: one step of the run. */
    method OnUnchoke(session: Bits) returns (requests: seq<nat>)
      requires peerBits.pieceCount == session.pieceCount
      modifies this`peerChoking, this`pending
      ensures View(Pieces(session)).(asked := requests) == Next(old(View(Pieces(session))), Unchoke)
    {
      peerChoking := false;
      requests := FillRequests(None, session);
    }

    /** `Pipeline::on_choke`: one step of the run. */
    method OnChoke()
      modifies this`peerChoking, this`pending, this`amInterested
      ensures !amInterested
      ensures forall ours :: View(ours) == Next(old(View(ours)), Choke)
    {
      peerChoking := true;
      pending := {};
      amInterested := false;
    }

    method ClearPiece(index: nat)
      modifies this`pending
      ensures pending == old(pending) - {index}
    {
      pending := pending - {index};
    }

    /** `Pipeline::set_bitfield`: one step of the run, or, on a bitfield that came with too few bytes, a panic. */
    method SetPeerBit(index: nat) returns (panics: bool)
      modifies this`peerBits
      ensures panics <==> !old(Reaches(peerBits, index))
      ensures panics ==> peerBits == old(peerBits)
      ensures !panics ==> |peerBits.bytes| == |old(peerBits.bytes)| &&
                          forall ours :: View(ours) == Next(old(View(ours)), PeerHas(index))
    {
      panics := !Reaches(peerBits, index);
      if !panics {
        OperationsRefineSet(peerBits, index);
        peerBits := Set(peerBits, index);
      }
    }

    /** `Pipeline::evaluate_interest`: interested exactly when the peer has a piece we lack. */
    method EvaluateInterest(ours: Bits) returns (interested: bool)
      requires peerBits.pieceCount == ours.pieceCount
      modifies this`amInterested
      ensures interested <==> exists i :: i in Pieces(peerBits) && i !in Pieces(ours)
      ensures amInterested == interested
    {
      DifferenceIsSetDifference(peerBits, ours);
      var wanted := Difference(peerBits, ours);
      assert wanted != [] ==> wanted[0] in wanted;
      interested := wanted != [];
      amInterested := interested;
    }

    /** `Pipeline::fill_requests`, against the pure fill. */
    method FillRequests(received: Option<nat>, session: Bits) returns (requests: seq<nat>)
      requires peerBits.pieceCount == session.pieceCount
      modifies this`pending
      ensures View(Pieces(session)).(asked := requests) == Fill(old(View(Pieces(session))), received)
      ensures peerChoking ==> requests == [] && pending == old(pending)
    {
      if peerChoking {
        return [];
      }
      if received.Some? {
        pending := pending - {received.value};
      }
      DifferenceIsWanted(peerBits, session);
      requests, pending := TakeSlots(Difference(peerBits, session), pending);
    }
  }

  lemma {:induction false} TakeStep(requests: seq<nat>, wanted: seq<nat>, i: nat, pending: set<nat>, slots: nat)
    requires i < |wanted| && slots > 0 && wanted[i] !in pending
    ensures requests + NewRequests(wanted[i..], pending, slots) ==
            (requests + [wanted[i]]) + NewRequests(wanted[i + 1..], pending + {wanted[i]}, slots - 1)
  {
    Unfold(wanted, i, pending, slots);
  }

  lemma {:induction false} NothingLeft(wanted: seq<nat>, i: nat, pending: set<nat>, slots: nat)
    requires i <= |wanted| && (i == |wanted| || slots == 0)
    ensures NewRequests(wanted[i..], pending, slots) == []
  {
  }

  lemma {:induction false} ElementsPush(s: seq<nat>, x: nat)
    ensures Elements(s + [x]) == Elements(s) + {x}
  {
  }

  /** The loop of a fill: each wanted piece that is not pending takes a slot, until none is left. */
  method TakeSlots(wanted: seq<nat>, kept: set<nat>) returns (requests: seq<nat>, pending: set<nat>)
    ensures requests == NewRequests(wanted, kept, Slots(kept))
    ensures pending == kept + Elements(requests)
  {
    var slots: nat := Max(MAX_PIPELINE - |kept|, 0);
    requests, pending := [], kept;
    var i := 0;
    assert wanted[0..] == wanted;
    while i < |wanted| && slots > 0
      invariant 0 <= i <= |wanted|
      invariant pending == kept + Elements(requests)
      invariant requests + NewRequests(wanted[i..], pending, slots) == NewRequests(wanted, kept, Slots(kept))
    {
      var piece := wanted[i];
      if piece !in pending {
        TakeStep(requests, wanted, i, pending, slots);
        ElementsPush(requests, piece);
        pending := pending + {piece};
        requests := requests + [piece];
        slots := slots - 1;
      } else {
        Unfold(wanted, i, pending, slots);
      }
      i := i + 1;
    }
    NothingLeft(wanted, i, pending, slots);
  }

  function StillPending(pending: set<nat>, received: Option<nat>): set<nat> {
    if received.Some? then pending - {received.value} else pending
  }

  /** One peer of a download: its pieces and ours out of `n`, its choke flag, what is pending, and every piece asked of
      it since the last choke. Our pieces also grow through other peers. */
  datatype State = State(n: nat, peer: set<nat>, ours: set<nat>, choked: bool, pending: set<nat>, asked: seq<nat>)

  datatype Event = Choke | Unchoke | PeerHas(index: nat) | PieceArrived(index: nat) | OtherPeerGave(index: nat)

  function Fill(s: State, received: Option<nat>): State {
    if s.choked then s
    else
      var kept := StillPending(s.pending, received);
      var requests := NewRequests(Wanted(s.peer, s.ours, s.n), kept, Slots(kept));
      s.(pending := kept + Elements(requests), asked := s.asked + requests)
  }

  function With(pieces: set<nat>, n: nat, i: nat): set<nat> {
    if i < n then pieces + {i} else pieces
  }

  /** One handler call: `on_choke`; `on_unchoke` and a fill; `set_bitfield`; `process_piece`. */
  function Next(s: State, e: Event): State {
    match e
    case Choke => s.(choked := true, pending := {}, asked := [])
    case Unchoke => Fill(s.(choked := false), None)
    case PeerHas(i) => s.(peer := With(s.peer, s.n, i))
    case OtherPeerGave(i) => s.(ours := With(s.ours, s.n, i))
    case PieceArrived(i) =>
      if i < s.n && i in s.ours then Fill(s, None)
      else
        var t := Taken(s, i);
        if Complete(t.ours, t.n) then t else Fill(t, Some(i))
  }

  /** A piece we lacked is added to ours and is pending no more. */
  function Taken(s: State, i: nat): State {
    s.(ours := With(s.ours, s.n, i), pending := s.pending - {i})
  }

  predicate Complete(pieces: set<nat>, n: nat) {
    forall j: nat :: j < n ==> j in pieces
  }

  /** `BepRouter::process_piece` together with `TorrentSession::add_piece`: one arrived piece is one step of the run. */
  method ProcessPiece(pipeline: Pipeline, session: BitField, index: nat) returns (requests: seq<nat>)
    requires Wide(session.Snapshot()) && pipeline.peerBits.pieceCount == session.pieceCount
    modifies pipeline`pending, session
    ensures Wide(session.Snapshot())
    ensures pipeline.View(Pieces(session.Snapshot())).(asked := requests) ==
            Next(old(pipeline.View(Pieces(session.Snapshot()))), PieceArrived(index))
  {
    ghost var s := pipeline.View(Pieces(session.Snapshot()));
    var had := session.HaveBit(index);
    assert had <==> index < s.n && index in s.ours;
    if had {
      requests := pipeline.FillRequests(None, session.Snapshot());
      assert Next(s, PieceArrived(index)) == Fill(s, None);
    } else {
      requests := TakePiece(pipeline, session, index);
    }
  }

  /** The part of `process_piece` for a piece not had before. */
  method TakePiece(pipeline: Pipeline, session: BitField, index: nat) returns (requests: seq<nat>)
    requires Wide(session.Snapshot()) && pipeline.peerBits.pieceCount == session.pieceCount
    modifies pipeline`pending, session
    ensures Wide(session.Snapshot())
    ensures var t := Taken(old(pipeline.View(Pieces(session.Snapshot()))), index);
            pipeline.View(Pieces(session.Snapshot())).(asked := requests) ==
            if Complete(t.ours, t.n) then t else Fill(t, Some(index))
  {
    ghost var t := Taken(pipeline.View(Pieces(session.Snapshot())), index);
    session.SetBit(index);
    pipeline.ClearPiece(index);
    var ours := session.Snapshot();
    assert pipeline.View(Pieces(ours)) == t;
    requests := FillUnlessComplete(pipeline, ours, index);
  }

  method FillUnlessComplete(pipeline: Pipeline, ours: Bits, index: nat) returns (requests: seq<nat>)
    requires pipeline.peerBits.pieceCount == ours.pieceCount
    modifies pipeline`pending
    ensures var t := old(pipeline.View(Pieces(ours)));
            pipeline.View(Pieces(ours)).(asked := requests) ==
            if Complete(t.ours, t.n) then t else Fill(t, Some(index))
  {
    CompleteWhenAllSet(ours);
    if IsComplete(ours) {
      return [];
    }
    requests := pipeline.FillRequests(Some(index), ours);
  }

  lemma {:induction false} CompleteWhenAllSet(b: Bits)
    ensures IsComplete(b) <==> Complete(Pieces(b), b.pieceCount)
  {
    QueriesAgree(b);
  }

  ghost predicate Inv(s: State) {
    && |s.pending| <= MAX_PIPELINE
    && (forall i, j :: 0 <= i < j < |s.asked| ==> s.asked[i] != s.asked[j])
    && (forall x :: x in s.asked ==> x < s.n && (x in s.pending || x in s.ours))
    && (forall x :: x in s.pending ==> x in s.asked)
  }

  lemma {:induction false} Subset(s: set<nat>, t: set<nat>)
    requires s <= t
    ensures |s| <= |t| && (|s| == |t| ==> s == t)
  {
    assert t == s + (t - s);
  }

  /** The requests of a fill on an unchoked pipeline. */
  function Requests(s: State, received: Option<nat>): seq<nat> {
    var kept := StillPending(s.pending, received);
    NewRequests(Wanted(s.peer, s.ours, s.n), kept, Slots(kept))
  }

  lemma {:induction false} RequestsFacts(s: State, received: Option<nat>)
    requires Inv(s) && (received.Some? ==> received.value in s.ours || received.value !in s.asked)
    ensures var kept, r := StillPending(s.pending, received), Requests(s, received);
            && (forall x :: x in r ==> x < s.n && x in s.peer && x !in s.ours && x !in s.asked)
            && (forall i, j :: 0 <= i < j < |r| ==> r[i] != r[j])
            && |kept + Elements(r)| <= MAX_PIPELINE
            && (|kept + Elements(r)| < MAX_PIPELINE ==>
                  forall x :: x < s.n && x in s.peer && x !in s.ours ==> x in kept + Elements(r))
  {
    var kept, r := StillPending(s.pending, received), Requests(s, received);
    var wanted := Wanted(s.peer, s.ours, s.n);
    Subset(kept, s.pending);
    WantedExact(s.peer, s.ours, s.n);
    RequestsAreNew(wanted, kept, Slots(kept));
    RequestsDistinct(wanted, kept, Slots(kept));
    RequestsAreEnough(wanted, kept, Slots(kept));
    DistinctSize(kept, r);
  }

  lemma {:induction false} AskedGrows(asked: seq<nat>, r: seq<nat>)
    requires forall i, j :: 0 <= i < j < |asked| ==> asked[i] != asked[j]
    requires forall i, j :: 0 <= i < j < |r| ==> r[i] != r[j]
    requires forall x :: x in r ==> x !in asked
    ensures forall i, j :: 0 <= i < j < |asked + r| ==> (asked + r)[i] != (asked + r)[j]
    ensures forall i :: |asked| <= i < |asked + r| ==> (asked + r)[i] in r
    ensures forall x :: x in asked + r <==> x in asked || x in r
  {
    assert forall i :: 0 <= i < |r| ==> r[i] in r;
  }

  /** Asking for the pieces `r`, with `kept` still pending. */
  lemma {:induction false} Filled(s: State, kept: set<nat>, r: seq<nat>)
    requires Inv(s) && kept <= s.pending && (forall x :: x in s.pending && x !in kept ==> x in s.ours || x !in s.asked)
    requires forall x :: x in r ==> x < s.n && x in s.peer && x !in s.ours && x !in s.asked
    requires forall i, j :: 0 <= i < j < |r| ==> r[i] != r[j]
    requires |kept + Elements(r)| <= MAX_PIPELINE
    ensures var t := s.(pending := kept + Elements(r), asked := s.asked + r);
            && Inv(t)
            && forall i :: |s.asked| <= i < |t.asked| ==>
                 t.asked[i] < s.n && t.asked[i] in s.peer && t.asked[i] !in s.ours && t.asked[i] !in s.asked
  {
    AskedGrows(s.asked, r);
    assert forall x :: x in r ==> x in Elements(r);
  }

  /** A fill keeps the invariant; it asks only for pieces the peer has and we lack, none of them asked before since the
      last choke; and it fills every slot or leaves no such piece unasked. */
  lemma {:induction false} FillKeeps(s: State, received: Option<nat>)
    requires Inv(s) && (received.Some? ==> received.value in s.ours || received.value !in s.asked)
    ensures var t := Fill(s, received);
            && Inv(t) && s.asked <= t.asked
            && (forall i :: |s.asked| <= i < |t.asked| ==>
                  t.asked[i] < s.n && t.asked[i] in s.peer && t.asked[i] !in s.ours && t.asked[i] !in s.asked)
            && (!s.choked && |t.pending| < MAX_PIPELINE ==>
                  forall i :: i < s.n && i in s.peer && i !in s.ours ==> i in t.pending)
  {
    if !s.choked {
      RequestsFacts(s, received);
      Filled(s, StillPending(s.pending, received), Requests(s, received));
    }
  }

  lemma {:induction false} TakenKeeps(s: State, i: nat)
    requires Inv(s)
    ensures Inv(Taken(s, i)) && (i in Taken(s, i).ours || i !in s.asked)
  {
    Subset(s.pending - {i}, s.pending);
  }

  lemma {:induction false} ArrivalKeeps(s: State, i: nat)
    requires Inv(s)
    ensures var t := Next(s, PieceArrived(i));
            && Inv(t) && s.asked <= t.asked
            && forall k :: |s.asked| <= k < |t.asked| ==> t.asked[k] in s.peer && t.asked[k] !in s.ours
  {
    if i < s.n && i in s.ours {
      FillKeeps(s, None);
    } else {
      TakenKeeps(s, i);
      FillKeeps(Taken(s, i), Some(i));
    }
  }

  lemma {:induction false} StepKeeps(s: State, e: Event)
    requires Inv(s)
    ensures Inv(Next(s, e))
    ensures e.Choke? || s.asked <= Next(s, e).asked
    ensures forall i :: (if e.Choke? then 0 else |s.asked|) <= i < |Next(s, e).asked| ==>
              Next(s, e).asked[i] in s.peer && Next(s, e).asked[i] !in s.ours
  {
    match e
    case Choke =>
    case Unchoke => FillKeeps(s.(choked := false), None);
    case PeerHas(i) =>
    case OtherPeerGave(i) =>
    case PieceArrived(i) => ArrivalKeeps(s, i);
  }

  function After(s: State, events: seq<Event>): State
    decreases |events|
  {
    if events == [] then s else After(Next(s, events[0]), events[1..])
  }

  /** Every run keeps at most 128 pieces pending and never asks for a piece twice between two chokes. */
  lemma {:induction false} RunKeeps(s: State, events: seq<Event>)
    requires Inv(s)
    ensures Inv(After(s, events))
    decreases |events|
  {
    if events != [] {
      StepKeeps(s, events[0]);
      RunKeeps(Next(s, events[0]), events[1..]);
    }
  }

  /** A fresh pipeline satisfies the invariant, so it holds throughout every run of a connection. */
  lemma {:induction false} EveryRunKeeps(n: nat, peer: set<nat>, ours: set<nat>, events: seq<Event>)
    ensures Inv(After(State(n, peer, ours, true, {}, []), events))
  {
    RunKeeps(State(n, peer, ours, true, {}, []), events);
  }

  /** Pending pieces that have meanwhile come from another peer. */
  function Stale(s: State): set<nat> {
    s.pending * s.ours
  }

  ghost predicate NoChoke(events: seq<Event>) {
    forall i :: 0 <= i < |events| ==> !events[i].Choke?
  }

  lemma {:induction false} NoSlotNoRequest(s: State, received: Option<nat>)
    requires |StillPending(s.pending, received)| >= MAX_PIPELINE
    ensures Fill(s, received).asked == s.asked
  {
  }

  lemma {:induction false} FillKeepsStale(s: State, received: Option<nat>)
    requires received.Some? ==> received.value !in s.pending
    ensures s.pending <= Fill(s, received).pending && Fill(s, received).ours == s.ours
  {
  }

  lemma {:induction false} StaleStays(s: State, e: Event)
    requires Inv(s) && !e.Choke?
    ensures Stale(s) <= Stale(Next(s, e))
  {
    match e
    case Unchoke => FillKeepsStale(s.(choked := false), None);
    case PeerHas(i) =>
    case OtherPeerGave(i) =>
    case PieceArrived(i) =>
      FillKeepsStale(s, None);
      FillKeepsStale(Taken(s, i), Some(i));
      if !(i < s.n && i in s.ours) { TakenKeepsStale(s, i); }
  }

  lemma {:induction false} TakenKeepsStale(s: State, i: nat)
    requires Inv(s) && !(i < s.n && i in s.ours)
    ensures Stale(s) <= Stale(Taken(s, i))
  {
    assert i in s.pending ==> i in s.asked;
  }

  lemma {:induction false} FullOfStale(s: State, e: Event)
    requires Inv(s) && !e.Choke? && |Stale(s)| == MAX_PIPELINE
    ensures Next(s, e).asked == s.asked
  {
    Subset(Stale(s), s.pending);
    match e
    case Unchoke => NoSlotNoRequest(s.(choked := false), None);
    case PeerHas(i) =>
    case OtherPeerGave(i) =>
    case PieceArrived(i) =>
      if i < s.n && i in s.ours {
        NoSlotNoRequest(s, None);
      } else {
        assert i in s.pending ==> i in s.asked && i in s.ours;
        ArrivedFull(s, i);
      }
  }

  /** A piece that was not pending frees no slot. */
  lemma {:induction false} ArrivedFull(s: State, i: nat)
    requires |s.pending| >= MAX_PIPELINE && i !in s.pending
    ensures Next(s, PieceArrived(i)).asked == s.asked
  {
    if i < s.n && i in s.ours {
      NoSlotNoRequest(s, None);
    } else {
      assert s.pending - {i} == s.pending && s.pending - {i} - {i} == s.pending;
      NoSlotNoRequest(Taken(s, i), Some(i));
    }
  }

  /** A stale slot is given back by no event but a choke, so once all 128 are stale nothing is ever asked again until
      then, whatever the peer still has to offer. */
  lemma {:induction false} StaleSlotsStall(s: State, events: seq<Event>)
    requires Inv(s) && NoChoke(events)
    ensures Stale(s) <= Stale(After(s, events))
    ensures |Stale(s)| == MAX_PIPELINE ==> After(s, events).asked == s.asked
    decreases |events|
  {
    if events != [] {
      var t := Next(s, events[0]);
      StepKeeps(s, events[0]);
      StaleStays(s, events[0]);
      if |Stale(s)| == MAX_PIPELINE { FullOfStale(s, events[0]); }
      StaleSlotsStall(t, events[1..]);
      Subset(Stale(s), Stale(t));
      Subset(Stale(t), t.pending);
    }
  }

  /** Every piece is ours or asked for. */
  predicate Covered(s: State) {
    forall j: nat :: j < s.n ==> j in s.ours || j in s.pending
  }

  lemma {:induction false} NothingToAsk(s: State, received: Option<nat>)
    requires Covered(s) && (received.Some? && received.value < s.n ==> received.value in s.ours)
    ensures Fill(s, received).asked == s.asked && Covered(Fill(s, received))
  {
    var kept := StillPending(s.pending, received);
    var wanted := Wanted(s.peer, s.ours, s.n);
    var r := Requests(s, received);
    assert r != [] ==> r[0] in r;
    WantedExact(s.peer, s.ours, s.n);
    RequestsAreNew(wanted, kept, Slots(kept));
    assert r == [];
  }

  lemma {:induction false} CoveredStep(s: State, e: Event)
    requires Covered(s) && !e.Choke?
    ensures Covered(Next(s, e)) && Next(s, e).asked == s.asked
  {
    match e
    case Unchoke => NothingToAsk(s.(choked := false), None);
    case PeerHas(i) =>
    case OtherPeerGave(i) =>
    case PieceArrived(i) =>
      if i < s.n && i in s.ours { NothingToAsk(s, None); } else { NothingToAsk(Taken(s, i), Some(i)); }
  }

  lemma {:induction false} CoveredStalls(s: State, events: seq<Event>)
    requires Covered(s) && NoChoke(events)
    ensures After(s, events).asked == s.asked
    decreases |events|
  {
    if events != [] {
      CoveredStep(s, events[0]);
      CoveredStalls(Next(s, events[0]), events[1..]);
    }
  }

  /** With a slot and a wanted piece that is not pending, a fill asks. */
  lemma {:induction false} FillAsks(s: State, received: Option<nat>, j: nat)
    requires !s.choked && j < s.n && j in s.peer && j !in s.ours && j !in s.pending
    requires |StillPending(s.pending, received)| < MAX_PIPELINE
    ensures Fill(s, received).asked != s.asked
  {
    var kept := StillPending(s.pending, received);
    var wanted := Wanted(s.peer, s.ours, s.n);
    WantedExact(s.peer, s.ours, s.n);
    RequestsAreEnough(wanted, kept, Slots(kept));
    var r := Requests(s, received);
    assert j in r || |r| == Slots(kept);
    assert |s.asked + r| > |s.asked|;
  }

  lemma {:induction false} FullUnchoke(s: State)
    requires |s.pending| >= MAX_PIPELINE
    ensures Next(s, Unchoke) == s.(choked := false)
  {
    assert Elements([]) == {};
    assert NewRequests(Wanted(s.peer, s.ours, s.n), s.pending, 0) == [];
  }

  lemma {:induction false} DeliveryFrees(s: State, x: nat, j: nat)
    requires !s.choked && |s.pending| == MAX_PIPELINE && x in s.pending && x !in s.ours
    requires j < s.n && j in s.peer && j !in s.ours && j !in s.pending
    ensures Next(s, PieceArrived(x)).asked != s.asked
  {
    var t := Taken(s, x);
    assert j !in t.ours;
    assert StillPending(t.pending, Some(x)) == s.pending - {x};
    FillAsks(t, Some(x), j);
  }
}
