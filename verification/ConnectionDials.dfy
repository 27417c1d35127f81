/** Dials and accepts: where one leads by itself, and what marks an address over every run. */
module ConnectionDials {
  import opened Bytes
  import opened ConnectionManager

  function Moves(i: nat, n: nat, succeeds: bool): seq<Action> {
    seq(n, _ => Move(i, succeeds))
  }

  lemma {:induction false} Then(s: Sys, local: Addr, act: Action, acts: seq<Action>)
    ensures Run(s, local, [act] + acts) == Run(Next(s, local, act), local, acts)
  {
    assert ([act] + acts)[1..] == acts;
  }

  function WithLast(s: Sys, t: Task): Sys {
    s.(tasks := s.tasks + [t])
  }

  /** The last task moves on, `s` becoming `u` but for it. */
  lemma {:induction false} Onward(s: Sys, local: Addr, t: Task, u: Sys, next: Task, n: nat, succeeds: bool)
    requires n > 0 && u.tasks == s.tasks && Moved(WithLast(s, t), local, |s.tasks|, succeeds) == WithLast(u, next)
    ensures Run(WithLast(s, t), local, Moves(|s.tasks|, n, succeeds)) ==
            Run(WithLast(u, next), local, Moves(|s.tasks|, n - 1, succeeds))
  {
    assert Moves(|s.tasks|, n, succeeds) == [Move(|s.tasks|, succeeds)] + Moves(|s.tasks|, n - 1, succeeds);
    Then(WithLast(s, t), local, Move(|s.tasks|, succeeds), Moves(|s.tasks|, n - 1, succeeds));
  }

  lemma {:induction false} FinishedStays(s: Sys, local: Addr, n: nat, succeeds: bool)
    ensures Run(WithLast(s, Finished), local, Moves(|s.tasks|, n, succeeds)) == WithLast(s, Finished)
    decreases n
  {
    if n > 0 {
      Onward(s, local, Finished, s, Finished, n, succeeds);
      FinishedStays(s, local, n - 1, succeeds);
    }
  }

  /** A dial by itself: to an address that has a connection, or is being dialled, it does nothing. Otherwise it enters
      the new connection, or nothing if the dial fails; and it takes its mark away again in either case. */
  lemma {:induction false} DialAlone(s: Sys, local: Addr, addr: Addr, n: nat, succeeds: bool)
    requires n >= 5
    ensures var u := Run(s, local, [Connect(addr)] + Moves(|s.tasks|, n, succeeds));
            var id := |s.made|;
            u == WithLast(if addr in s.conns || addr in s.connecting then s
                          else if !succeeds then s.(made := s.made + [addr])
                          else s.(made := s.made + [addr], conns := s.conns[addr := id], appended := s.appended + {id}),
                          Finished)
  {
    Then(s, local, Connect(addr), Moves(|s.tasks|, n, succeeds));
    if addr in s.conns || addr in s.connecting {
      Onward(s, local, Checking(addr), s, Finished, n, succeeds);
      FinishedStays(s, local, n - 1, succeeds);
    } else {
      var marked := s.(connecting := s.connecting + {addr});
      Onward(s, local, Checking(addr), s, Marking(addr), n, succeeds);
      Onward(s, local, Marking(addr), marked, Dialing(addr), n - 1, succeeds);
      DialFrom(s, marked, local, addr, n - 2, succeeds);
    }
  }

  lemma {:induction false} DialFrom(s: Sys, marked: Sys, local: Addr, addr: Addr, n: nat, succeeds: bool)
    requires n >= 3 && addr !in s.conns && addr !in s.connecting && marked == s.(connecting := s.connecting + {addr})
    ensures var id := |s.made|;
            Run(WithLast(marked, Dialing(addr)), local, Moves(|s.tasks|, n, succeeds)) ==
            WithLast(if !succeeds then s.(made := s.made + [addr])
                     else s.(made := s.made + [addr], conns := s.conns[addr := id], appended := s.appended + {id}),
                     Finished)
  {
    var id := |s.made|;
    var made := marked.(made := s.made + [addr]);
    var plain := s.(made := s.made + [addr]);
    assert made.connecting - {addr} == s.connecting;
    if succeeds {
      var entered := made.(conns := s.conns[addr := id], appended := s.appended + {id});
      var end := plain.(conns := s.conns[addr := id], appended := s.appended + {id});
      assert s.closed + {} == s.closed;
      Onward(marked, local, Dialing(addr), made, DialAppend(addr, id), n, succeeds);
      Onward(made, local, DialAppend(addr, id), entered, Unmarking(addr), n - 1, succeeds);
      Onward(entered, local, Unmarking(addr), end, Finished, n - 2, succeeds);
      FinishedStays(end, local, n - 3, succeeds);
    } else {
      Onward(marked, local, Dialing(addr), made, Unmarking(addr), n, succeeds);
      Onward(made, local, Unmarking(addr), plain, Finished, n - 1, succeeds);
      FinishedStays(plain, local, n - 2, succeeds);
    }
  }

  /** An accepted connection by itself: entered at a free address; at a taken one the side with the smaller address
      closes it, and the other closes the one it had and enters the new one. */
  lemma {:induction false} AcceptAlone(s: Sys, local: Addr, addr: Addr, n: nat, succeeds: bool)
    requires n >= 1
    ensures var u := Run(s, local, [Accept(addr)] + Moves(|s.tasks|, n, succeeds));
            var id := |s.made|;
            var t := s.(made := s.made + [addr], appended := s.appended + {id});
            u == WithLast(if addr !in s.conns then t.(conns := s.conns[addr := id])
                          else if local < addr then t.(closed := s.closed + {id})
                          else t.(conns := s.conns[addr := id], closed := s.closed + {s.conns[addr]}),
                          Finished)
  {
    var id := |s.made|;
    var made := s.(made := s.made + [addr]);
    var t := made.(appended := s.appended + {id});
    var u := if addr !in s.conns then t.(conns := s.conns[addr := id])
             else if local < addr then t.(closed := s.closed + {id})
             else t.(conns := s.conns[addr := id], closed := s.closed + {s.conns[addr]});
    assert s.closed + {} == s.closed;
    Then(s, local, Accept(addr), Moves(|s.tasks|, n, succeeds));
    Onward(made, local, AcceptAppend(addr, id), u, Finished, n, succeeds);
    FinishedStays(u, local, n - 1, succeeds);
  }

  ghost predicate Dialled(s: Sys, addr: Addr) {
    exists i :: 0 <= i < |s.tasks| && addr in Dials(s.tasks[i])
  }

  ghost predicate MarksOk(s: Sys) {
    forall a :: a in s.connecting ==> Dialled(s, a)
  }

  lemma {:induction false} MoveMarks(s: Sys, local: Addr, i: nat, succeeds: bool)
    requires MarksOk(s) && i < |s.tasks|
    ensures MarksOk(Moved(s, local, i, succeeds))
  {
    var t := Moved(s, local, i, succeeds);
    forall a | a in t.connecting ensures Dialled(t, a) {
      if a in s.connecting {
        var j :| 0 <= j < |s.tasks| && a in Dials(s.tasks[j]);
        if j != i { assert t.tasks[j] == s.tasks[j]; } else { assert a in Dials(t.tasks[i]); }
      } else {
        assert a in Dials(t.tasks[i]);
      }
    }
  }

  lemma {:induction false} StepMarks(s: Sys, local: Addr, act: Action)
    requires MarksOk(s)
    ensures MarksOk(Next(s, local, act))
  {
    var t := Next(s, local, act);
    if act.Move? {
      if act.task < |s.tasks| { MoveMarks(s, local, act.task, act.succeeds); }
    } else {
      forall a | a in t.connecting ensures Dialled(t, a) {
        var j :| 0 <= j < |s.tasks| && a in Dials(s.tasks[j]);
        assert t.tasks[j] == s.tasks[j];
      }
    }
  }

  lemma {:induction false} RunMarks(s: Sys, local: Addr, acts: seq<Action>)
    requires MarksOk(s)
    ensures MarksOk(Run(s, local, acts))
    decreases |acts|
  {
    if acts != [] {
      StepMarks(s, local, acts[0]);
      RunMarks(Next(s, local, acts[0]), local, acts[1..]);
    }
  }

  /** Over every run: an address is marked if and only if a dial of it is under way, so no mark outlives its dial. */
  lemma {:induction false} MarkedIffDialled(local: Addr, acts: seq<Action>, addr: Addr)
    ensures addr in Run(FRESH, local, acts).connecting <==> Dialled(Run(FRESH, local, acts), addr)
  {
    var s := Run(FRESH, local, acts);
    RunMarks(FRESH, local, acts);
    EveryRun(local, acts);
    if Dialled(s, addr) {
      var i :| 0 <= i < |s.tasks| && addr in Dials(s.tasks[i]);
      assert TaskOk(s, s.tasks[i]);
    }
  }
}
