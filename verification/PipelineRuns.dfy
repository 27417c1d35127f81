/** What every run makes of a request pipeline: when it is choked and silent, what it knows, what is pending. */
module PipelineRuns {
  import opened Bytes
  import opened Pipeline

  /** The last Choke or Unchoke is an Unchoke. */
  ghost predicate Open(events: seq<Event>) {
    exists k :: 0 <= k < |events| && events[k].Unchoke? && forall j :: k < j < |events| ==> !events[j].Choke?
  }

  lemma {:induction false} OpenAppend(events: seq<Event>, e: Event)
    ensures Open(events + [e]) <==> e.Unchoke? || (Open(events) && !e.Choke?)
  {
    var more := events + [e];
    if Open(events) && !e.Choke? {
      var k :| 0 <= k < |events| && events[k].Unchoke? && forall j :: k < j < |events| ==> !events[j].Choke?;
      assert more[k].Unchoke? && forall j :: k < j < |more| ==> !more[j].Choke?;
    }
    if e.Unchoke? { assert more[|events|].Unchoke?; }
    if Open(more) && !e.Unchoke? {
      var k :| 0 <= k < |more| && more[k].Unchoke? && forall j :: k < j < |more| ==> !more[j].Choke?;
      assert more[|events|] == e;
      assert events[k].Unchoke? && forall j :: k < j < |events| ==> !events[j].Choke? by {
        assert forall j :: 0 <= j < |events| ==> more[j] == events[j];
      }
    }
  }

  lemma {:induction false} AfterAppend(s: State, events: seq<Event>, e: Event)
    ensures After(s, events + [e]) == Next(After(s, events), e)
    decreases |events|
  {
    if events == [] {
      assert ([] + [e])[1..] == [];
    } else {
      assert (events + [e])[1..] == events[1..] + [e];
      AfterAppend(Next(s, events[0]), events[1..], e);
    }
  }

  /** A choked pipeline stays choked until the next Unchoke, and asks nothing. */
  lemma {:induction false} ChokedStep(s: State, e: Event)
    ensures s.choked && !e.Unchoke? && !e.Choke? ==> Next(s, e).asked == s.asked && Next(s, e).choked
    ensures Next(s, e).choked <==> e.Choke? || (s.choked && !e.Unchoke?)
  {
  }

  function Fresh(n: nat, peer: set<nat>, ours: set<nat>): State {
    State(n, peer, ours, true, {}, [])
  }

  /** Over every run from a fresh pipeline: it is choked exactly unless the last Choke or Unchoke was an Unchoke; and
      while it is, nothing has been asked since the last Choke, or at all if there was none, and nothing is pending. */
  lemma {:induction false} ChokedIsSilent(n: nat, peer: set<nat>, ours: set<nat>, events: seq<Event>)
    ensures var s := After(Fresh(n, peer, ours), events);
            (s.choked <==> !Open(events)) && (s.choked ==> s.asked == [] && s.pending == {})
    decreases |events|
  {
    if events != [] {
      var before, e := Front(events), Last(events);
      assert events == before + [e];
      ChokedIsSilent(n, peer, ours, before);
      AfterAppend(Fresh(n, peer, ours), before, e);
      OpenAppend(before, e);
      ChokedStep(After(Fresh(n, peer, ours), before), e);
    }
  }

  /** From `s` to `t` some pieces were asked for; they joined those of `kept` in what is pending. */
  ghost predicate Asks(s: State, kept: set<nat>, t: State) {
    && t.n == s.n && t.ours == s.ours && t.peer == s.peer
    && s.asked <= t.asked && t.pending == kept + Elements(t.asked[|s.asked|..])
  }

  /** The piece an event delivers to us through this peer for the first time. */
  function Delivered(s: State, e: Event): set<nat> {
    if e.PieceArrived? && !(e.index < s.n && e.index in s.ours) then {e.index} else {}
  }

  lemma {:induction false} NothingAsked(s: State)
    ensures Asks(s, s.pending, s)
  {
    assert s.asked[|s.asked|..] == [] && Elements([]) == {};
  }

  /** A fill of an unchoked pipeline first drops the piece just received from what is pending. */
  lemma {:induction false} FillAsksFor(s: State, received: Option<nat>)
    ensures Asks(s, if !s.choked && received.Some? then s.pending - {received.value} else s.pending, Fill(s, received))
  {
    if s.choked {
      NothingAsked(s);
    } else {
      assert (s.asked + Requests(s, received))[|s.asked|..] == Requests(s, received);
    }
  }

  lemma {:induction false} FillAfterTaking(s: State, i: nat)
    ensures Asks(Taken(s, i), s.pending - {i}, Fill(Taken(s, i), Some(i)))
  {
    FillAsksFor(Taken(s, i), Some(i));
    assert s.pending - {i} - {i} == s.pending - {i};
  }

  /** The account of one event: a choke empties what is pending; otherwise exactly the piece delivered now leaves it and
      exactly the pieces asked for now join it. A piece that another peer had given before stays pending. */
  lemma {:induction false} PendingAccounts(s: State, e: Event)
    ensures if e.Choke? then Next(s, e).pending == {} && Next(s, e).asked == []
            else s.asked <= Next(s, e).asked &&
                 Next(s, e).pending == (s.pending - Delivered(s, e)) + Elements(Next(s, e).asked[|s.asked|..])
  {
    match e
    case Choke =>
    case Unchoke => FillAsksFor(s.(choked := false), None);
    case PeerHas(_) => NothingAsked(s);
    case OtherPeerGave(_) => NothingAsked(s);
    case PieceArrived(i) => ArrivalAccounts(s, i);
  }

  lemma {:induction false} ArrivalAccounts(s: State, i: nat)
    ensures var t := Next(s, PieceArrived(i));
            s.asked <= t.asked &&
            t.pending == (s.pending - Delivered(s, PieceArrived(i))) + Elements(t.asked[|s.asked|..])
  {
    if i < s.n && i in s.ours {
      FillAsksFor(s, None);
      assert s.pending - {} == s.pending;
    } else if Complete(Taken(s, i).ours, s.n) {
      NothingAsked(Taken(s, i));
    } else {
      FillAfterTaking(s, i);
    }
  }

  /** The pieces an event adds to ours, and to the peer's. */
  function Gained(n: nat, e: Event): set<nat> {
    match e
    case PieceArrived(i) => if i < n then {i} else {}
    case OtherPeerGave(i) => if i < n then {i} else {}
    case _ => {}
  }

  function Announced(n: nat, e: Event): set<nat> {
    if e.PeerHas? && e.index < n then {e.index} else {}
  }

  function GainedBy(n: nat, events: seq<Event>): set<nat> {
    set k | 0 <= k < |events|, i <- Gained(n, events[k]) :: i
  }

  function AnnouncedBy(n: nat, events: seq<Event>): set<nat> {
    set k | 0 <= k < |events|, i <- Announced(n, events[k]) :: i
  }

  lemma {:induction false} StepKnows(s: State, e: Event)
    ensures Next(s, e).n == s.n
    ensures Next(s, e).ours == s.ours + Gained(s.n, e) && Next(s, e).peer == s.peer + Announced(s.n, e)
  {
    match e
    case Unchoke => FillAsksFor(s.(choked := false), None);
    case PieceArrived(i) => ArrivalKnows(s, i);
    case _ =>
  }

  lemma {:induction false} ArrivalKnows(s: State, i: nat)
    ensures var t := Next(s, PieceArrived(i)); t.n == s.n && t.ours == With(s.ours, s.n, i) && t.peer == s.peer
  {
    if i < s.n && i in s.ours {
      FillAsksFor(s, None);
      assert s.ours + {i} == s.ours;
    } else if !Complete(Taken(s, i).ours, s.n) {
      FillAfterTaking(s, i);
    }
  }

  /** Over every run, whatever is asked and whether choked or not: ours are the pieces there were at first, those that
      arrived and those other peers gave; the peer's are those of its bitfield and those it announced. */
  lemma {:induction false} RunKnows(s: State, events: seq<Event>)
    ensures After(s, events).n == s.n
    ensures After(s, events).ours == s.ours + GainedBy(s.n, events)
    ensures After(s, events).peer == s.peer + AnnouncedBy(s.n, events)
    decreases |events|
  {
    if events != [] {
      StepKnows(s, events[0]);
      RunKnows(Next(s, events[0]), events[1..]);
      ByFirst(s.n, events);
    }
  }

  lemma {:induction false} ByFirst(n: nat, events: seq<Event>)
    requires events != []
    ensures GainedBy(n, events) == Gained(n, events[0]) + GainedBy(n, events[1..])
    ensures AnnouncedBy(n, events) == Announced(n, events[0]) + AnnouncedBy(n, events[1..])
  {
    var rest := events[1..];
    assert forall k :: 0 <= k < |rest| ==> rest[k] == events[k + 1];
    assert forall k :: 0 < k < |events| ==> events[k] == rest[k - 1];
  }

  /** With what is asked for, 128 pieces are pending or every piece the peer has and we lack is; and the pieces asked
      for are lower than any left out. */
  ghost predicate Busy(asked: seq<nat>, t: State) {
    && (|t.pending| == MAX_PIPELINE || forall x :: x < t.n && x in t.peer && x !in t.ours ==> x in t.pending)
    && forall x, y :: x in asked && y < t.n && y in t.peer && y !in t.ours && y !in t.pending ==> x < y
  }

  lemma {:induction false} FillIsBusy(s: State, received: Option<nat>)
    requires Inv(s) && !s.choked && (received.Some? ==> received.value in s.ours || received.value !in s.asked)
    ensures s.asked <= Fill(s, received).asked && Busy(Fill(s, received).asked[|s.asked|..], Fill(s, received))
  {
    var r := RequestsAreBusy(s, received);
    assert (s.asked + r)[|s.asked|..] == r;
  }

  lemma {:induction false} RequestsAreBusy(s: State, received: Option<nat>) returns (r: seq<nat>)
    requires Inv(s) && (received.Some? ==> received.value in s.ours || received.value !in s.asked)
    ensures r == Requests(s, received)
    ensures Busy(r, s.(pending := StillPending(s.pending, received) + Elements(r), asked := s.asked + r))
  {
    r := Requests(s, received);
    var kept := StillPending(s.pending, received);
    var t := s.(pending := kept + Elements(r), asked := s.asked + r);
    assert |t.pending| == MAX_PIPELINE || forall x :: x < t.n && x in t.peer && x !in t.ours ==> x in t.pending by {
      RequestsFacts(s, received);
    }
    AsksLowest(s.peer, s.ours, s.n, kept);
    assert r == NewRequests(Wanted(s.peer, s.ours, s.n), kept, Slots(kept));
    assert forall x, y :: x in r && y < t.n && y in t.peer && y !in t.ours && y !in t.pending ==> x < y;
  }

  lemma {:induction false} AsksLowest(peer: set<nat>, ours: set<nat>, n: nat, kept: set<nat>)
    ensures var r := NewRequests(Wanted(peer, ours, n), kept, Slots(kept));
            forall x, y :: x in r && y < n && y in peer && y !in ours && y !in kept + Elements(r) ==> x < y
  {
    var wanted := Wanted(peer, ours, n);
    var r := NewRequests(wanted, kept, Slots(kept));
    WantedExact(peer, ours, n);
    forall x, y | x in r && y < n && y in peer && y !in ours && y !in kept + Elements(r) ensures x < y {
      LowestFirst(wanted, kept, Slots(kept), y, x);
    }
  }

  /** An unchoked pipeline is kept busy by every Unchoke and every arrival that does not complete the download. */
  lemma {:induction false} KeptBusy(s: State, e: Event)
    requires Inv(s) && (e.Unchoke? || (e.PieceArrived? && !s.choked && !Complete(Next(s, e).ours, s.n)))
    ensures s.asked <= Next(s, e).asked && Busy(Next(s, e).asked[|s.asked|..], Next(s, e))
  {
    match e
    case Unchoke => FillIsBusy(s.(choked := false), None);
    case PieceArrived(i) =>
      ArrivalKnows(s, i);
      if i < s.n && i in s.ours {
        FillIsBusy(s, None);
      } else {
        TakenKeeps(s, i);
        FillIsBusy(Taken(s, i), Some(i));
      }
  }
}
