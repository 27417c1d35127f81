/** Requests of a pipeline that are in flight, and when a pipeline can ask for nothing more. */
module PipelineStall {
  import opened Bytes
  import opened Pipeline
  import PipelineRuns

  /** A pipeline and its requests in flight. A choke forgets what is pending but not what is in flight, so a piece can
      be in flight more than once. */
  datatype Flight = Flight(s: State, flying: multiset<nat>)

  /** What befalls the pipeline, where a piece arrives only for a request in flight; or such a request fails: with an
      error, with a payload that cannot be split, or with a signature that does not verify. */
  datatype Happening = Handled(event: Event) | RequestFailed(index: nat)

  function Added(s: State, t: State): seq<nat> {
    if |s.asked| <= |t.asked| then t.asked[|s.asked|..] else []
  }

  function Flown(f: Flight, e: Event): Flight {
    var t := Next(f.s, e);
    Flight(t, f.flying + multiset(Added(f.s, t)))
  }

  function NextFlight(f: Flight, h: Happening): Flight {
    match h
    case RequestFailed(i) => f.(flying := f.flying - multiset{i})
    case Handled(PieceArrived(i)) =>
      if i in f.flying then Flown(f.(flying := f.flying - multiset{i}), PieceArrived(i)) else f
    case Handled(e) => Flown(f, e)
  }

  function AfterFlight(f: Flight, run: seq<Happening>): Flight
    decreases |run|
  {
    if run == [] then f else AfterFlight(NextFlight(f, run[0]), run[1..])
  }

  predicate IsChoke(h: Happening) {
    h == Handled(Choke)
  }

  ghost predicate NoChokes(run: seq<Happening>) {
    forall i :: 0 <= i < |run| ==> !IsChoke(run[i])
  }

  /** Every run of happenings keeps the pipeline's invariant. */
  lemma {:induction false} FlightKeeps(f: Flight, h: Happening)
    requires Inv(f.s)
    ensures Inv(NextFlight(f, h).s)
  {
    if h.Handled? { StepKeeps(f.s, h.event); }
  }

  lemma {:induction false} FlightRunKeeps(f: Flight, run: seq<Happening>)
    requires Inv(f.s)
    ensures Inv(AfterFlight(f, run).s)
    decreases |run|
  {
    if run != [] {
      FlightKeeps(f, run[0]);
      FlightRunKeeps(NextFlight(f, run[0]), run[1..]);
    }
  }

  /** Slots that nothing but a choke gives back: the piece has come from another peer, or its request is over. */
  function Stuck(f: Flight): set<nat> {
    set x | x in f.s.pending && (x in f.s.ours || x !in f.flying)
  }

  lemma {:induction false} LaterDiffer(asked: seq<nat>, more: seq<nat>, x: nat)
    requires asked <= more && x in asked && forall i, j :: 0 <= i < j < |more| ==> more[i] != more[j]
    ensures x !in more[|asked|..]
  {
    var n := |asked|;
    var i :| 0 <= i < n && asked[i] == x;
    forall k | 0 <= k < |more[n..]| ensures more[n..][k] != x {
      assert more[n..][k] == more[n + k] && more[i] == x;
    }
  }

  /** What is asked anew was not pending. */
  lemma {:induction false} AddedAreNew(s: State, e: Event, x: nat)
    requires Inv(s) && !e.Choke? && x in s.pending
    ensures x !in Added(s, Next(s, e))
  {
    StepKeeps(s, e);
    LaterDiffer(s.asked, Next(s, e).asked, x);
  }

  lemma {:induction false} PendingStays(s: State, e: Event, x: nat)
    requires Inv(s) && !e.Choke? && x in s.pending && (e == PieceArrived(x) ==> x in s.ours)
    ensures x in Next(s, e).pending
  {
    assert x in s.asked;
  }

  lemma {:induction false} OursGrow(s: State, e: Event)
    ensures s.ours <= Next(s, e).ours
  {
  }

  lemma {:induction false} StuckOne(f: Flight, e: Event, x: nat, flying: multiset<nat>)
    requires Inv(f.s) && !e.Choke? && x in Stuck(f) && flying <= f.flying
    requires e == PieceArrived(x) ==> x in f.flying
    ensures x in Stuck(Flown(f.(flying := flying), e))
  {
    PendingStays(f.s, e, x);
    AddedAreNew(f.s, e, x);
    OursGrow(f.s, e);
    assert x !in f.flying ==> x !in flying;
  }

  /** A stuck slot stays stuck until a choke. */
  lemma {:induction false} StuckStays(f: Flight, h: Happening)
    requires Inv(f.s) && !IsChoke(h)
    ensures Stuck(f) <= Stuck(NextFlight(f, h))
  {
    forall x | x in Stuck(f) ensures x in Stuck(NextFlight(f, h)) {
      match h
      case RequestFailed(i) => assert x !in f.flying ==> x !in f.flying - multiset{i};
      case Handled(e) =>
        if !e.PieceArrived? {
          StuckOne(f, e, x, f.flying);
        } else if e.index in f.flying {
          StuckOne(f, e, x, f.flying - multiset{e.index});
        }
    }
  }

  lemma {:induction false} FullOfStuck(f: Flight, h: Happening)
    requires Inv(f.s) && !IsChoke(h) && |Stuck(f)| == MAX_PIPELINE
    ensures NextFlight(f, h).s.asked == f.s.asked
  {
    Subset(Stuck(f), f.s.pending);
    assert Stuck(f) == f.s.pending;
    if h.Handled? {
      match h.event
      case Unchoke => NoSlotNoRequest(f.s.(choked := false), None);
      case PieceArrived(i) =>
        if i in f.s.pending && i in f.flying {
          assert i in f.s.asked;
          NoSlotNoRequest(f.s, None);
        } else {
          if i in f.flying { ArrivedFull(f.s, i); }
        }
      case _ =>
    }
  }

  /** So once all 128 slots are stuck nothing is ever asked again until a choke. */
  lemma {:induction false} StuckSlotsStall(f: Flight, run: seq<Happening>)
    requires Inv(f.s) && NoChokes(run)
    ensures Stuck(f) <= Stuck(AfterFlight(f, run))
    ensures |Stuck(f)| == MAX_PIPELINE ==> AfterFlight(f, run).s.asked == f.s.asked
    decreases |run|
  {
    if run != [] {
      var g := NextFlight(f, run[0]);
      FlightKeeps(f, run[0]);
      StuckStays(f, run[0]);
      if |Stuck(f)| == MAX_PIPELINE { FullOfStuck(f, run[0]); }
      StuckSlotsStall(g, run[1..]);
      Subset(Stuck(f), Stuck(g));
      Subset(Stuck(g), g.s.pending);
    }
  }

  lemma {:induction false} CoveredFlight(f: Flight, run: seq<Happening>)
    requires Covered(f.s) && NoChokes(run)
    ensures AfterFlight(f, run).s.asked == f.s.asked
    decreases |run|
  {
    if run != [] {
      if run[0].Handled? { CoveredStep(f.s, run[0].event); }
      CoveredFlight(NextFlight(f, run[0]), run[1..]);
    }
  }

  lemma {:induction false} RunOne(f: Flight, h: Happening, run: seq<Happening>)
    ensures AfterFlight(f, [h] + run) == AfterFlight(NextFlight(f, h), run)
  {
    assert ([h] + run)[1..] == run;
  }

  lemma {:induction false} AsksAtUnchoke(f: Flight, j: nat) returns (run: seq<Happening>)
    requires |f.s.pending| < MAX_PIPELINE && j < f.s.n && j !in f.s.ours && j !in f.s.pending
    ensures NoChokes(run) && AfterFlight(f, run).s.asked != f.s.asked
  {
    var has, unchoke := Handled(PeerHas(j)), Handled(Unchoke);
    var g := NextFlight(f, has);
    FillAsks(g.s.(choked := false), None, j);
    run := [has] + ([unchoke] + []);
    RunOne(f, has, [unchoke] + []);
    RunOne(g, unchoke, []);
  }

  lemma {:induction false} AsksAtDelivery(f: Flight, x: nat, j: nat) returns (run: seq<Happening>)
    requires |f.s.pending| == MAX_PIPELINE && x in f.s.pending && x !in f.s.ours && x in f.flying
    requires j < f.s.n && j !in f.s.ours && j !in f.s.pending
    ensures NoChokes(run) && AfterFlight(f, run).s.asked != f.s.asked
  {
    var has, unchoke, arrives := Handled(PeerHas(j)), Handled(Unchoke), Handled(PieceArrived(x));
    var f1 := NextFlight(f, has);
    FullUnchoke(f1.s);
    var f2 := NextFlight(f1, unchoke);
    assert f2.s == f1.s.(choked := false) && x in f2.flying;
    DeliveryFrees(f2.s, x, j);
    run := [has] + ([unchoke] + ([arrives] + []));
    RunOne(f, has, [unchoke] + ([arrives] + []));
    RunOne(f1, unchoke, [arrives] + []);
    RunOne(f2, arrives, []);
  }

  lemma {:induction false} FreshSlot(f: Flight) returns (x: nat)
    requires |Stuck(f)| < MAX_PIPELINE <= |f.s.pending|
    ensures x in f.s.pending && x !in f.s.ours && x in f.flying
  {
    assert Stuck(f) != f.s.pending;
    x :| x in f.s.pending && x !in Stuck(f);
  }

  /** A piece neither ours nor pending, and a slot that is not stuck: the peer may yet come to have the piece, unchoke
      us, and deliver a piece in flight. */
  lemma {:induction false} CanStillAsk(f: Flight, j: nat) returns (run: seq<Happening>)
    requires Inv(f.s) && |Stuck(f)| < MAX_PIPELINE && j < f.s.n && j !in f.s.ours && j !in f.s.pending
    ensures NoChokes(run) && AfterFlight(f, run).s.asked != f.s.asked
  {
    if |f.s.pending| < MAX_PIPELINE {
      run := AsksAtUnchoke(f, j);
    } else {
      var x := FreshSlot(f);
      run := AsksAtDelivery(f, x, j);
    }
  }

  /** The exact condition: without a choke a pipeline can still come to ask for something if and only if one of its
      slots is not stuck and some piece is neither ours nor pending. */
  lemma {:induction false} StallsIff(f: Flight)
    requires Inv(f.s)
    ensures (exists run :: NoChokes(run) && AfterFlight(f, run).s.asked != f.s.asked) <==>
            |Stuck(f)| < MAX_PIPELINE && !Covered(f.s)
  {
    Subset(Stuck(f), f.s.pending);
    if |Stuck(f)| < MAX_PIPELINE && !Covered(f.s) {
      var j: nat :| j < f.s.n && j !in f.s.ours && j !in f.s.pending;
      var run := CanStillAsk(f, j);
    } else {
      forall run | NoChokes(run) ensures AfterFlight(f, run).s.asked == f.s.asked {
        if Covered(f.s) { CoveredFlight(f, run); } else { StuckSlotsStall(f, run); }
      }
    }
  }

  /** A pipeline at the start of a connection. */
  function Fresh(n: nat, peer: set<nat>, ours: set<nat>): Flight {
    Flight(PipelineRuns.Fresh(n, peer, ours), multiset{})
  }

  /** What the peer has and we lack at the start. */
  function Lacking(n: nat, peer: set<nat>, ours: set<nat>): set<nat> {
    set x | x in peer && x < n && x !in ours
  }

  lemma {:induction false} OnceEach(s: seq<nat>, x: nat)
    requires x in s && forall i, j :: 0 <= i < j < |s| ==> s[i] != s[j]
    ensures multiset(s)[x] == 1
    decreases |s|
  {
    var t := s[1..];
    assert s == [s[0]] + t;
    if s[0] == x {
      assert x !in t;
    } else {
      OnceEach(t, x);
    }
  }

  /** With more than 128 pieces to get, the first fill takes every slot; each of its requests is in flight once. */
  lemma {:induction false} FirstFill(n: nat, peer: set<nat>, ours: set<nat>)
    requires |Lacking(n, peer, ours)| > MAX_PIPELINE
    ensures var f := NextFlight(Fresh(n, peer, ours), Handled(Unchoke));
            && Inv(f.s) && |f.s.pending| == MAX_PIPELINE && !f.s.choked && f.s.pending !! f.s.ours
            && f.s.n == n && f.s.peer == peer && f.s.ours == ours && forall x :: x in f.s.pending ==> f.flying[x] == 1
  {
    var s := Fresh(n, peer, ours).s;
    var t := Next(s, Unchoke);
    var f := NextFlight(Fresh(n, peer, ours), Handled(Unchoke));
    FillKeeps(s.(choked := false), None);
    if |t.pending| < MAX_PIPELINE {
      Subset(Lacking(n, peer, ours), t.pending);
    }
    assert f.flying == multiset(t.asked) by { assert t.asked[0..] == t.asked; }
    forall x | x in t.pending ensures f.flying[x] == 1 && x !in ours {
      assert x in t.asked;
      OnceEach(t.asked, x);
      var i :| 0 <= i < |t.asked| && t.asked[i] == x;
    }
  }

  /** All requests for `todo` fail. */
  lemma {:induction false} FailAll(f: Flight, todo: set<nat>) returns (run: seq<Happening>)
    requires forall x :: x in todo ==> f.flying[x] == 1
    ensures NoChokes(run)
    ensures var g := AfterFlight(f, run);
            g.s == f.s && g.flying <= f.flying && forall x :: x in todo ==> x !in g.flying
    decreases todo
  {
    if todo == {} {
      run := [];
    } else {
      var i :| i in todo;
      var g := NextFlight(f, RequestFailed(i));
      var rest := FailAll(g, todo - {i});
      run := [RequestFailed(i)] + rest;
      RunOne(f, RequestFailed(i), rest);
    }
  }

  /** Other peers give the pieces of `todo`. */
  lemma {:induction false} OthersGive(f: Flight, todo: set<nat>) returns (run: seq<Happening>)
    requires forall x :: x in todo ==> x < f.s.n
    ensures NoChokes(run)
    ensures AfterFlight(f, run) == f.(s := f.s.(ours := f.s.ours + todo))
    decreases todo
  {
    if todo == {} {
      run := [];
      assert f.s.ours + todo == f.s.ours;
    } else {
      var i :| i in todo;
      var give := Handled(OtherPeerGave(i));
      var g := NextFlight(f, give);
      assert g == f.(s := f.s.(ours := f.s.ours + {i}));
      var rest := OthersGive(g, todo - {i});
      run := [give] + rest;
      RunOne(f, give, rest);
      assert g.s.ours + (todo - {i}) == f.s.ours + todo;
    }
  }

  /** A piece the peer has and we lack is left over when every slot is taken. */
  lemma {:induction false} NotAllCovered(s: State, ours: set<nat>)
    requires |Lacking(s.n, s.peer, ours)| > MAX_PIPELINE >= |s.pending| && s.ours <= ours + s.pending
    ensures !Covered(s)
  {
    if Lacking(s.n, s.peer, ours) <= s.pending { Subset(Lacking(s.n, s.peer, ours), s.pending); }
    var j :| j in Lacking(s.n, s.peer, ours) && j !in s.pending;
  }

  /** Every slot is taken by a piece we lack, with its request in flight, and there is more to get. */
  ghost predicate Full(f: Flight) {
    && Inv(f.s) && |f.s.pending| == MAX_PIPELINE && f.s.pending !! f.s.ours
    && |Lacking(f.s.n, f.s.peer, f.s.ours)| > MAX_PIPELINE && forall x :: x in f.s.pending ==> f.flying[x] == 1
  }

  lemma {:induction false} FillFirst(n: nat, peer: set<nat>, ours: set<nat>) returns (f: Flight)
    requires |Lacking(n, peer, ours)| > MAX_PIPELINE
    ensures Full(f) && f.s.ours == ours
    ensures forall rest :: AfterFlight(Fresh(n, peer, ours), [Handled(Unchoke)] + rest) == AfterFlight(f, rest)
  {
    f := NextFlight(Fresh(n, peer, ours), Handled(Unchoke));
    FirstFill(n, peer, ours);
    forall rest ensures AfterFlight(Fresh(n, peer, ours), [Handled(Unchoke)] + rest) == AfterFlight(f, rest) {
      RunOne(Fresh(n, peer, ours), Handled(Unchoke), rest);
    }
  }

  /** No slot can be given back, though there is more to get. */
  ghost predicate Stalled(f: Flight) {
    Inv(f.s) && |Stuck(f)| == MAX_PIPELINE && !Covered(f.s)
  }

  lemma {:induction false} AllFail(f: Flight) returns (run: seq<Happening>)
    requires Full(f)
    ensures NoChokes(run) && Stalled(AfterFlight(f, run)) && AfterFlight(f, run).s == f.s
  {
    run := FailAll(f, f.s.pending);
    var g := AfterFlight(f, run);
    assert Stuck(g) == f.s.pending;
    NotAllCovered(g.s, f.s.ours);
  }

  lemma {:induction false} AllGiven(f: Flight) returns (run: seq<Happening>)
    requires Full(f)
    ensures NoChokes(run) && Stalled(AfterFlight(f, run)) && |Stale(AfterFlight(f, run).s)| == MAX_PIPELINE
  {
    assert forall x :: x in f.s.pending ==> x in f.s.asked;
    run := OthersGive(f, f.s.pending);
    var g := AfterFlight(f, run);
    assert Stuck(g) == f.s.pending && Stale(g.s) == f.s.pending;
    NotAllCovered(g.s, f.s.ours);
    FlightRunKeeps(f, run);
  }

  /** Both stalls are reached from the start, with any peer that has more than 128 pieces we lack: when all requests of
      the first fill fail, */
  lemma {:induction false} FailuresStall(n: nat, peer: set<nat>, ours: set<nat>) returns (run: seq<Happening>)
    requires |Lacking(n, peer, ours)| > MAX_PIPELINE
    ensures NoChokes(run)
    ensures Stalled(AfterFlight(Fresh(n, peer, ours), run)) && AfterFlight(Fresh(n, peer, ours), run).s.ours == ours
  {
    var f := FillFirst(n, peer, ours);
    var rest := AllFail(f);
    run := [Handled(Unchoke)] + rest;
  }

  /** and when other peers deliver all its pieces first. */
  lemma {:induction false} StallIsReachable(n: nat, peer: set<nat>, ours: set<nat>) returns (run: seq<Happening>)
    requires |Lacking(n, peer, ours)| > MAX_PIPELINE
    ensures NoChokes(run) && Stalled(AfterFlight(Fresh(n, peer, ours), run))
    ensures |Stale(AfterFlight(Fresh(n, peer, ours), run).s)| == MAX_PIPELINE
  {
    var f := FillFirst(n, peer, ours);
    var rest := AllGiven(f);
    run := [Handled(Unchoke)] + rest;
  }

  /** Every request in flight is for another piece, asked for since the last choke. */
  ghost predicate FliesOnce(f: Flight) {
    forall x: nat :: f.flying[x] <= (if x in f.s.asked then 1 else 0)
  }

  lemma {:induction false} AddedOnce(s: State, t: State, x: nat)
    requires Inv(t) && s.asked <= t.asked
    ensures multiset(Added(s, t))[x] <= 1 && (x in Added(s, t) ==> x !in s.asked && x in t.asked)
  {
    var more := t.asked[|s.asked|..];
    DistinctOnce(more, x);
    if x in more {
      var i :| 0 <= i < |more| && more[i] == x;
      assert t.asked[|s.asked| + i] == x;
      assert forall j :: 0 <= j < |s.asked| ==> t.asked[j] == s.asked[j] && t.asked[j] != x;
    }
  }

  lemma {:induction false} DistinctOnce(r: seq<nat>, x: nat)
    requires forall i, j :: 0 <= i < j < |r| ==> r[i] != r[j]
    ensures multiset(r)[x] <= 1
  {
    if r != [] {
      DistinctOnce(r[1..], x);
      assert r == [r[0]] + r[1..];
      if x == r[0] { assert x !in r[1..]; }
    }
  }

  lemma {:induction false} FlownOnce(f: Flight, e: Event)
    requires Inv(f.s) && FliesOnce(f) && !e.Choke?
    ensures FliesOnce(Flown(f, e))
  {
    var t := Next(f.s, e);
    StepKeeps(f.s, e);
    forall x: nat ensures Flown(f, e).flying[x] <= (if x in t.asked then 1 else 0) {
      AddedOnce(f.s, t, x);
      assert x in f.s.asked ==> x in t.asked;
      if x !in Added(f.s, t) { assert multiset(Added(f.s, t))[x] == 0; }
    }
  }

  lemma {:induction false} OnceStep(f: Flight, h: Happening)
    requires Inv(f.s) && FliesOnce(f) && !IsChoke(h)
    ensures Inv(NextFlight(f, h).s) && FliesOnce(NextFlight(f, h))
    ensures h.RequestFailed? ==> h.index !in NextFlight(f, h).flying
    ensures h.Handled? && h.event.PieceArrived? ==> h.event.index !in NextFlight(f, h).flying
  {
    match h
    case RequestFailed(i) => assert f.flying[i] <= 1;
    case Handled(PieceArrived(i)) =>
      if i in f.flying {
        var g := f.(flying := f.flying - multiset{i});
        StepKeeps(f.s, PieceArrived(i));
        assert f.flying[i] <= 1 && i in f.s.asked;
        AddedOnce(f.s, Next(f.s, PieceArrived(i)), i);
        FlownOnce(g, PieceArrived(i));
      }
    case Handled(e) =>
      StepKeeps(f.s, e);
      FlownOnce(f, e);
  }

  lemma {:induction false} OnceRun(f: Flight, run: seq<Happening>)
    requires Inv(f.s) && FliesOnce(f) && NoChokes(run)
    ensures Inv(AfterFlight(f, run).s) && FliesOnce(AfterFlight(f, run))
    decreases |run|
  {
    if run != [] {
      OnceStep(f, run[0]);
      OnceRun(NextFlight(f, run[0]), run[1..]);
    }
  }

  /** Over every run from a fresh pipeline without a choke: no two requests in flight are for one piece, and when a
      piece arrives, or its request fails, it is in flight no more. */
  lemma {:induction false} EachFliesOnce(n: nat, peer: set<nat>, ours: set<nat>, run: seq<Happening>, i: nat)
    requires NoChokes(run)
    ensures var f := AfterFlight(Fresh(n, peer, ours), run);
            && f.flying[i] <= 1
            && i !in NextFlight(f, RequestFailed(i)).flying && i !in NextFlight(f, Handled(PieceArrived(i))).flying
  {
    OnceRun(Fresh(n, peer, ours), run);
    var f := AfterFlight(Fresh(n, peer, ours), run);
    OnceStep(f, RequestFailed(i));
    OnceStep(f, Handled(PieceArrived(i)));
  }
}
