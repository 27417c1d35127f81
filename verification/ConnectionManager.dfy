/** The connection table: accepts, dials, disconnects, late disconnect callbacks and shutdown, interleaved freely. */
module ConnectionManager {
  import opened Bytes

  type Addr = int

  /** The table after `append_connection` of connection `id`, and the connection it closed, if any. The side with the
      smaller address keeps the old connection. */
  function Appended(conns: map<Addr, nat>, local: Addr, addr: Addr, id: nat): (map<Addr, nat>, set<nat>) {
    if addr !in conns then (conns[addr := id], {})
    else if local < addr then (conns, {id})
    else (conns[addr := id], {conns[addr]})
  }

  /** The table after a disconnect callback, and what it removed. */
  function CalledBack(conns: map<Addr, nat>, addr: Addr, id: nat): (map<Addr, nat>, set<nat>) {
    if addr in conns && conns[addr] == id then (conns - {addr}, {id}) else (conns, {})
  }

  /** The table after `disconnect`, and what it closed. */
  function Disconnected(conns: map<Addr, nat>, addr: Addr): (map<Addr, nat>, set<nat>) {
    if addr in conns then (conns - {addr}, {conns[addr]}) else (conns, {})
  }

  /** The dial marks after the second, decisive check of `connect`, and whether to dial. */
  function Marked(connecting: set<Addr>, addr: Addr): (set<Addr>, bool) {
    if addr in connecting then (connecting, false) else (connecting + {addr}, true)
  }

  class ConnectionManager {
    var connections: map<Addr, nat>
    var connecting: set<Addr>
    var nextId: nat
    const local: Addr

    constructor (local: Addr)
      ensures connections == map[] && connecting == {} && nextId == 0 && this.local == local
    {
      connections, connecting, nextId, this.local := map[], {}, 0, local;
    }

    /** `append_connection`, under the write lock. */
    method AppendConnection(addr: Addr, id: nat) returns (closed: set<nat>)
      modifies this`connections
      ensures (connections, closed) == Appended(old(connections), local, addr, id)
    {
      if addr !in connections {
        connections := connections[addr := id];
        return {};
      }
      if local < addr {
        return {id};
      }
      var old_ := connections[addr];
      connections := connections - {addr};
      connections := connections[addr := id];
      assert connections == old(connections)[addr := id];
      return {old_};
    }

    /** The body of `on_disconnect_handler`. */
    method OnDisconnect(addr: Addr, id: nat) returns (removed: set<nat>)
      modifies this`connections
      ensures (connections, removed) == CalledBack(old(connections), addr, id)
    {
      if addr !in connections || connections[addr] != id {
        return {};
      }
      connections := connections - {addr};
      return {id};
    }

    /** `disconnect`. */
    method Disconnect(addr: Addr) returns (closed: set<nat>)
      modifies this`connections
      ensures (connections, closed) == Disconnected(old(connections), addr)
    {
      if addr !in connections {
        return {};
      }
      closed := {connections[addr]};
      connections := connections - {addr};
    }

    /** The second, decisive check of `connect`: at most one caller gets to dial. */
    method TryMark(addr: Addr) returns (dial: bool)
      modifies this`connecting
      ensures (connecting, dial) == Marked(old(connecting), addr)
    {
      dial := addr !in connecting;
      if dial { connecting := connecting + {addr}; }
    }
  }

  /** A task between two lock sections: a dial, from its first check to its end, or an accepted connection. */
  datatype Task =
    | Checking(addr: Addr)
    | Marking(addr: Addr)
    | Dialing(addr: Addr)
    | DialAppend(addr: Addr, id: nat)
    | Unmarking(addr: Addr)
    | AcceptAppend(addr: Addr, id: nat)
    | Finished

  /** The manager, its tasks, and what became of every connection: appended so far, closed by the manager, removed by
      its own callback. `made` remembers the address every connection was made for, `called` whose callback has run. */
  datatype Sys = Sys(conns: map<Addr, nat>, connecting: set<Addr>, made: seq<Addr>, tasks: seq<Task>,
                     appended: set<nat>, closed: set<nat>, gone: set<nat>, called: set<nat>)

  datatype Action =
    | Connect(addr: Addr)
    | Accept(addr: Addr)
    | Move(task: nat, succeeds: bool)
    | Callback(id: nat)
    | Disconnect(addr: Addr)
    | Shutdown

  function At(s: Sys, i: nat, t: Task): Sys
    requires i < |s.tasks|
  {
    s.(tasks := s.tasks[i := t])
  }

  function Append(s: Sys, local: Addr, addr: Addr, id: nat): Sys {
    var (conns, shut) := Appended(s.conns, local, addr, id);
    s.(conns := conns, closed := s.closed + shut, appended := s.appended + {id})
  }

  function Moved(s: Sys, local: Addr, i: nat, succeeds: bool): Sys
    requires i < |s.tasks|
  {
    match s.tasks[i]
    case Checking(addr) => At(s, i, if addr in s.conns || addr in s.connecting then Finished else Marking(addr))
    case Marking(addr) =>
      var (connecting, dial) := Marked(s.connecting, addr);
      At(s.(connecting := connecting), i, if dial then Dialing(addr) else Finished)
    case Dialing(addr) =>
      At(s.(made := s.made + [addr]), i, if succeeds then DialAppend(addr, |s.made|) else Unmarking(addr))
    case DialAppend(addr, id) => At(Append(s, local, addr, id), i, Unmarking(addr))
    case Unmarking(addr) => At(s.(connecting := s.connecting - {addr}), i, Finished)
    case AcceptAppend(addr, id) => At(Append(s, local, addr, id), i, Finished)
    case Finished => s
  }

  function Values(conns: map<Addr, nat>): set<nat> {
    set a | a in conns :: conns[a]
  }

  function Next(s: Sys, local: Addr, act: Action): Sys {
    match act
    case Connect(addr) => s.(tasks := s.tasks + [Checking(addr)])
    case Accept(addr) => s.(made := s.made + [addr], tasks := s.tasks + [AcceptAppend(addr, |s.made|)])
    case Move(i, succeeds) => if i < |s.tasks| then Moved(s, local, i, succeeds) else s
    case Callback(id) =>
      if id >= |s.made| then s
      else
        var (conns, removed) := CalledBack(s.conns, s.made[id], id);
        s.(conns := conns, gone := s.gone + removed, called := s.called + {id})
    case Disconnect(addr) =>
      var (conns, shut) := Disconnected(s.conns, addr);
      s.(conns := conns, closed := s.closed + shut)
    case Shutdown => s.(conns := map[], closed := s.closed + Values(s.conns))
  }

  function Run(s: Sys, local: Addr, acts: seq<Action>): Sys
    decreases |acts|
  {
    if acts == [] then s else Run(Next(s, local, acts[0]), local, acts[1..])
  }

  /** The connection a task is still to append. */
  function Waiting(t: Task): set<nat> {
    match t
    case DialAppend(_, id) => {id}
    case AcceptAppend(_, id) => {id}
    case _ => {}
  }

  /** The address a task is dialling. */
  function Dials(t: Task): set<Addr> {
    match t
    case Dialing(addr) => {addr}
    case DialAppend(addr, _) => {addr}
    case Unmarking(addr) => {addr}
    case _ => {}
  }

  /** Every appended connection is in exactly one class: in the table, closed by the manager, gone by its callback. */
  ghost predicate Classified(s: Sys) {
    && s.appended == Values(s.conns) + s.closed + s.gone
    && Values(s.conns) !! s.closed && Values(s.conns) !! s.gone && s.closed !! s.gone
    && (forall id :: id in s.appended ==> id < |s.made|)
    && (forall a :: a in s.conns ==> s.conns[a] < |s.made| && s.made[s.conns[a]] == a)
  }

  /** A connection yet to be appended is known to one task only, and was made for its address. */
  ghost predicate TaskOk(s: Sys, t: Task) {
    && (forall id :: id in Waiting(t) ==> id < |s.made| && id !in s.appended && s.made[id] == t.addr)
    && Dials(t) <= s.connecting
  }

  ghost predicate TasksOk(s: Sys) {
    && (forall i :: 0 <= i < |s.tasks| ==> TaskOk(s, s.tasks[i]))
    && (forall i, j :: 0 <= i < j < |s.tasks| ==>
          Waiting(s.tasks[i]) !! Waiting(s.tasks[j]) && Dials(s.tasks[i]) !! Dials(s.tasks[j]))
  }

  ghost predicate Inv(s: Sys) {
    Classified(s) && TasksOk(s)
  }

  lemma {:induction false} AppendClassified(s: Sys, local: Addr, addr: Addr, id: nat)
    requires Classified(s) && id < |s.made| && s.made[id] == addr && id !in s.appended
    ensures Classified(Append(s, local, addr, id))
  {
    var t := Append(s, local, addr, id);
    if addr !in s.conns {
      ValuesUpdate(s.conns, addr, id);
    } else if local >= addr {
      ValuesUpdate(s.conns, addr, id);
      ValuesInjective(s, addr);
    }
  }

  lemma {:induction false} ValuesUpdate(conns: map<Addr, nat>, addr: Addr, id: nat)
    ensures Values(conns[addr := id]) == Values(conns - {addr}) + {id}
    ensures addr !in conns ==> Values(conns - {addr}) == Values(conns)
  {
    var m, rest := conns[addr := id], conns - {addr};
    assert m[addr] in Values(m);
    assert addr !in conns ==> rest == conns;
    forall v | v in Values(m) && v != id ensures v in Values(rest) {
      var a :| a in m && m[a] == v;
      assert a in rest && rest[a] == v;
    }
    forall v | v in Values(conns - {addr}) ensures v in Values(m) {
      var a :| a in conns - {addr} && (conns - {addr})[a] == v;
      assert m[a] == v;
    }
  }

  /** An address is the only place its connection is at. */
  lemma {:induction false} ValuesInjective(s: Sys, addr: Addr)
    requires Classified(s) && addr in s.conns
    ensures Values(s.conns - {addr}) == Values(s.conns) - {s.conns[addr]}
  {
    var m := s.conns - {addr};
    forall v | v in Values(s.conns) && v != s.conns[addr] ensures v in Values(m) {
      var a :| a in s.conns && s.conns[a] == v;
      assert a in m && m[a] == v;
    }
  }

  /** Replacing one task, with the rest of the system grown accordingly. */
  lemma {:induction false} ReplaceTask(s: Sys, t: Sys, i: nat)
    requires TasksOk(s) && i < |s.tasks| == |t.tasks|
    requires forall j :: 0 <= j < |s.tasks| && j != i ==> t.tasks[j] == s.tasks[j]
    requires s.made <= t.made && s.appended <= t.appended
    requires t.appended - s.appended <= Waiting(s.tasks[i])
    requires s.connecting - t.connecting <= Dials(s.tasks[i])
    requires TaskOk(t, t.tasks[i])
    requires Waiting(t.tasks[i]) <= Waiting(s.tasks[i]) || forall id :: id in Waiting(t.tasks[i]) ==> id >= |s.made|
    requires Dials(t.tasks[i]) <= Dials(s.tasks[i]) || Dials(t.tasks[i]) !! s.connecting
    ensures TasksOk(t)
  {
    assert TaskOk(s, s.tasks[i]);
    forall j | 0 <= j < |t.tasks| && j != i
      ensures TaskOk(t, t.tasks[j])
      ensures Waiting(t.tasks[i]) !! Waiting(t.tasks[j]) && Dials(t.tasks[i]) !! Dials(t.tasks[j])
    {
      assert TaskOk(s, s.tasks[j]);
      assert Waiting(s.tasks[i]) !! Waiting(s.tasks[j]) && Dials(s.tasks[i]) !! Dials(s.tasks[j]);
    }
  }

  lemma {:induction false} MoveKeeps(s: Sys, local: Addr, i: nat, succeeds: bool)
    requires Inv(s) && i < |s.tasks|
    ensures Inv(Moved(s, local, i, succeeds))
  {
    var t := Moved(s, local, i, succeeds);
    assert TaskOk(s, s.tasks[i]);
    match s.tasks[i]
    case Checking(addr) => ReplaceTask(s, t, i);
    case Marking(addr) => ReplaceTask(s, t, i);
    case Dialing(addr) => MadeClassified(s, addr); ReplaceTask(s, t, i);
    case DialAppend(addr, id) => AppendClassified(s, local, addr, id); ReplaceTask(s, t, i);
    case Unmarking(addr) => ReplaceTask(s, t, i);
    case AcceptAppend(addr, id) => AppendClassified(s, local, addr, id); ReplaceTask(s, t, i);
    case Finished =>
  }

  lemma {:induction false} MadeClassified(s: Sys, addr: Addr)
    requires Classified(s)
    ensures Classified(s.(made := s.made + [addr]))
  {
  }

  lemma {:induction false} NewTaskKeeps(s: Sys, made: seq<Addr>, task: Task)
    requires TasksOk(s) && s.made <= made && Dials(task) == {}
    requires TaskOk(s.(made := made), task) && forall id :: id in Waiting(task) ==> id >= |s.made|
    ensures TasksOk(s.(made := made, tasks := s.tasks + [task]))
  {
    var t := s.(made := made, tasks := s.tasks + [task]);
    forall i | 0 <= i < |s.tasks| ensures TaskOk(t, t.tasks[i]) && Waiting(t.tasks[i]) !! Waiting(task) {
      assert TaskOk(s, s.tasks[i]);
    }
  }

  /** Only the table and the classes change. */
  lemma {:induction false} SameTasks(s: Sys, t: Sys)
    requires TasksOk(s) && t.tasks == s.tasks && t.made == s.made
    requires t.appended == s.appended && t.connecting == s.connecting
    ensures TasksOk(t)
  {
    forall i | 0 <= i < |t.tasks| ensures TaskOk(t, t.tasks[i]) { assert TaskOk(s, s.tasks[i]); }
  }

  lemma {:induction false} StepKeeps(s: Sys, local: Addr, act: Action)
    requires Inv(s)
    ensures Inv(Next(s, local, act))
  {
    var t := Next(s, local, act);
    match act
    case Connect(addr) => NewTaskKeeps(s, s.made, Checking(addr));
    case Accept(addr) =>
      MadeClassified(s, addr);
      NewTaskKeeps(s, s.made + [addr], AcceptAppend(addr, |s.made|));
    case Move(i, succeeds) => if i < |s.tasks| { MoveKeeps(s, local, i, succeeds); }
    case Callback(id) =>
      if id < |s.made| && s.made[id] in s.conns && s.conns[s.made[id]] == id { ValuesInjective(s, s.made[id]); }
      SameTasks(s, t);
    case Disconnect(addr) =>
      if addr in s.conns { ValuesInjective(s, addr); assert s.conns[addr] in Values(s.conns); }
      SameTasks(s, t);
    case Shutdown => SameTasks(s, t);
  }

  const FRESH: Sys := Sys(map[], {}, [], [], {}, {}, {}, {})

  /** Every run, from an empty manager: every appended connection is in exactly one of the three classes, and at most
      one dial per address is under way. */
  lemma {:induction false} RunKeeps(s: Sys, local: Addr, acts: seq<Action>)
    requires Inv(s)
    ensures Inv(Run(s, local, acts))
    decreases |acts|
  {
    if acts != [] {
      StepKeeps(s, local, acts[0]);
      RunKeeps(Next(s, local, acts[0]), local, acts[1..]);
    }
  }

  lemma {:induction false} EveryRun(local: Addr, acts: seq<Action>)
    ensures Inv(Run(FRESH, local, acts))
  {
    assert Values(map[]) == {};
    RunKeeps(FRESH, local, acts);
  }

  lemma {:induction false} OneDialPerAddress(local: Addr, acts: seq<Action>, i: nat, j: nat, addr: Addr)
    requires var s := Run(FRESH, local, acts);
             i < |s.tasks| && j < |s.tasks| && addr in Dials(s.tasks[i]) && addr in Dials(s.tasks[j])
    ensures i == j && addr in Run(FRESH, local, acts).connecting
  {
    EveryRun(local, acts);
    var s := Run(FRESH, local, acts);
    assert TaskOk(s, s.tasks[i]);
  }

  /** A callback takes away its own connection or nothing: a newer one at the same address stays. */
  lemma {:induction false} StaleCallbackIsHarmless(local: Addr, acts: seq<Action>, id: nat, addr: Addr)
    requires addr in Run(FRESH, local, acts).conns && Run(FRESH, local, acts).conns[addr] != id
    ensures var s := Run(FRESH, local, acts);
            var t := Next(s, local, Callback(id));
            addr in t.conns && t.conns[addr] == s.conns[addr]
  {
    EveryRun(local, acts);
  }

  lemma {:induction false} RunSnoc(s: Sys, local: Addr, acts: seq<Action>)
    requires acts != []
    ensures var n := |acts| - 1; Run(s, local, acts) == Next(Run(s, local, acts[..n]), local, acts[n])
    decreases |acts|
  {
    var n := |acts| - 1;
    if n > 0 {
      var rest := acts[1..];
      RunSnoc(Next(s, local, acts[0]), local, rest);
      assert rest[..n - 1] == acts[..n][1..] && rest[n - 1] == acts[n];
    }
  }

  /** The callback of connection `id` runs as action `k`. */
  ghost predicate CalledAt(local: Addr, acts: seq<Action>, id: nat, k: nat) {
    k < |acts| && acts[k] == Callback(id) && id < |Run(FRESH, local, acts[..k]).made|
  }

  /** It does so after the connection was made and before it was appended. */
  ghost predicate CalledEarlyAt(local: Addr, acts: seq<Action>, id: nat, k: nat) {
    CalledAt(local, acts, id, k) && id !in Run(FRESH, local, acts[..k]).appended
  }

  /** A step of the run so far is a step of the longer run. */
  lemma {:induction false} CalledLater(local: Addr, acts: seq<Action>, n: nat, id: nat, k: nat)
    requires k < n <= |acts|
    ensures CalledAt(local, acts[..n], id, k) <==> CalledAt(local, acts, id, k)
    ensures CalledEarlyAt(local, acts[..n], id, k) <==> CalledEarlyAt(local, acts, id, k)
  {
    assert acts[..n][..k] == acts[..k];
  }

  lemma {:induction false} AppendedGrows(s: Sys, local: Addr, act: Action)
    ensures s.appended <= Next(s, local, act).appended && s.called <= Next(s, local, act).called
  {
  }

  /** `called` is what it says. */
  lemma {:induction false} CalledMeans(local: Addr, acts: seq<Action>, id: nat)
    ensures id in Run(FRESH, local, acts).called <==> exists k: nat :: CalledAt(local, acts, id, k)
    decreases |acts|
  {
    if acts != [] {
      var n := |acts| - 1;
      CalledMeans(local, acts[..n], id);
      RunSnoc(FRESH, local, acts);
      forall k: nat | k < n ensures CalledAt(local, acts[..n], id, k) <==> CalledAt(local, acts, id, k) {
        CalledLater(local, acts, n, id, k);
      }
      if id in Run(FRESH, local, acts[..n]).called {
        var k: nat :| CalledAt(local, acts[..n], id, k);
        assert CalledAt(local, acts, id, k);
      } else if id in Run(FRESH, local, acts).called {
        assert CalledAt(local, acts, id, n);
      }
    }
  }

  /** In the table, or not appended yet. */
  predicate Entered(s: Sys, id: nat) {
    id in Values(s.conns) || id !in s.appended
  }

  /** A step that enters a connection, or leaves it where it is, is not its callback once it is appended. */
  lemma {:induction false} EnteredBefore(s: Sys, local: Addr, act: Action, id: nat)
    requires Inv(s) && Entered(Next(s, local, act), id)
    ensures Entered(s, id)
    ensures id in Next(s, local, act).called && id !in s.called ==>
              act == Callback(id) && id < |s.made| && id !in s.appended
  {
    var t := Next(s, local, act);
    AppendedGrows(s, local, act);
    if id in s.appended {
      assert id in Values(t.conns);
      var a :| a in t.conns && t.conns[a] == id;
      KeptInTable(s, local, act, a);
      assert s.conns[a] == id;
      assert act == Callback(id) ==> s.made[id] == a;
    }
  }

  /** What is in the table after a step was there before, or has just been appended. */
  lemma {:induction false} KeptInTable(s: Sys, local: Addr, act: Action, a: Addr)
    requires Inv(s) && a in Next(s, local, act).conns && Next(s, local, act).conns[a] in s.appended
    ensures a in s.conns && s.conns[a] == Next(s, local, act).conns[a]
  {
    if act.Move? && act.task < |s.tasks| { assert TaskOk(s, s.tasks[act.task]); }
  }

  /** A connection that is in the table, or yet to be appended, and has had its callback had it too early. */
  lemma {:induction false} DeadWasEarly(local: Addr, acts: seq<Action>, id: nat) returns (k: nat)
    requires id in Run(FRESH, local, acts).called && Entered(Run(FRESH, local, acts), id)
    ensures CalledEarlyAt(local, acts, id, k)
    decreases |acts|
  {
    var n := |acts| - 1;
    var s := Run(FRESH, local, acts[..n]);
    RunSnoc(FRESH, local, acts);
    EveryRun(local, acts[..n]);
    EnteredBefore(s, local, acts[n], id);
    if id in s.called {
      k := DeadWasEarly(local, acts[..n], id);
      CalledLater(local, acts, n, id, k);
    } else {
      k := n;
    }
  }

  /** The exact condition: over every run, a connection in the table is dead, its callback having come and gone, if and
      only if that callback ran after the connection was made and before it was appended. */
  lemma {:induction false} DeadInTableIff(local: Addr, acts: seq<Action>, addr: Addr)
    requires addr in Run(FRESH, local, acts).conns
    ensures var s := Run(FRESH, local, acts);
            s.conns[addr] in s.called <==> exists k: nat :: CalledEarlyAt(local, acts, s.conns[addr], k)
  {
    var s := Run(FRESH, local, acts);
    var id := s.conns[addr];
    CalledMeans(local, acts, id);
    if id in s.called {
      assert id in Values(s.conns);
      var k := DeadWasEarly(local, acts, id);
    }
  }

  /** Hence a run in which no callback comes before its append keeps a table of live connections. */
  lemma {:induction false} TableIsLive(local: Addr, acts: seq<Action>)
    requires forall id: nat, k: nat :: !CalledEarlyAt(local, acts, id, k)
    ensures Values(Run(FRESH, local, acts).conns) !! Run(FRESH, local, acts).called
  {
    var s := Run(FRESH, local, acts);
    forall id | id in Values(s.conns) ensures id !in s.called {
      var a :| a in s.conns && s.conns[a] == id;
      DeadInTableIff(local, acts, a);
    }
  }

  /** The case occurs: a connection that ends before it is appended is entered all the same. */
  lemma {:induction false} DeadConnectionStays(local: Addr, addr: Addr)
    ensures var s := Run(FRESH, local, [Accept(addr), Callback(0), Move(0, true)]);
            s.conns == map[addr := 0] && s.called == {0} && s.tasks == [Finished]
  {
    var s1 := Next(FRESH, local, Accept(addr));
    var s2 := Next(s1, local, Callback(0));
    var s3 := Next(s2, local, Move(0, true));
    assert Run(s3, local, []) == s3;
    assert [Move(0, true)][1..] == [] && [Callback(0), Move(0, true)][1..] == [Move(0, true)];
    assert Run(s2, local, [Move(0, true)]) == s3;
    assert Run(s1, local, [Callback(0), Move(0, true)]) == s3;
    assert [Accept(addr), Callback(0), Move(0, true)][1..] == [Callback(0), Move(0, true)];
  }

  /** A disconnect leaves the address free and its connection closed, and no other entry touched. */
  lemma {:induction false} DisconnectFrees(s: Sys, local: Addr, addr: Addr)
    ensures var t := Next(s, local, Disconnect(addr));
            && addr !in t.conns && t.gone == s.gone
            && t.closed == s.closed + (if addr in s.conns then {s.conns[addr]} else {})
            && forall a :: a != addr ==> (a in t.conns <==> a in s.conns) && (a in s.conns ==> t.conns[a] == s.conns[a])
  {
  }

  /** A shutdown, after any run, leaves no entry, and every connection ever appended is closed or gone by its own
      callback. */
  lemma {:induction false} ShutdownClosesAll(local: Addr, acts: seq<Action>)
    ensures var t := Next(Run(FRESH, local, acts), local, Shutdown); t.conns == map[] && t.appended == t.closed + t.gone
  {
    EveryRun(local, acts);
  }

  /** Connections to one address, appended one after the other: the table, and all that was closed. */
  function AppendAll(conns: map<Addr, nat>, local: Addr, addr: Addr, ids: seq<nat>): (map<Addr, nat>, set<nat>) {
    if ids == [] then (conns, {})
    else
      var (before, closed) := AppendAll(conns, local, addr, Front(ids));
      var (after, shut) := Appended(before, local, addr, Last(ids));
      (after, closed + shut)
  }

  function Elements(ids: seq<nat>): set<nat> {
    set id | id in ids
  }

  ghost predicate Distinct(ids: seq<nat>) {
    forall i, j :: 0 <= i < j < |ids| ==> ids[i] != ids[j]
  }

  /** Of several connections to one address the first survives on the side with the smaller address, the last on the
      other; all others are closed, and no other entry changes. */
  lemma {:induction false} OneSurvives(conns: map<Addr, nat>, local: Addr, addr: Addr, ids: seq<nat>)
    requires ids != [] && addr !in conns && Distinct(ids)
    ensures var survivor := if local < addr then ids[0] else Last(ids);
            AppendAll(conns, local, addr, ids) == (conns[addr := survivor], Elements(ids) - {survivor})
  {
    var before, id := Front(ids), Last(ids);
    if before == [] {
      assert ids[0] == id;
      assert AppendAll(conns, local, addr, ids).1 == Elements(ids) - {id};
    } else {
      OneSurvives(conns, local, addr, before);
      var kept := if local < addr then ids[0] else Last(before);
      assert kept in before by { assert before[0] in before && Last(before) in before; }
      assert id !in before;
      assert conns[addr := kept][addr := id] == conns[addr := id];
      OneMoreId(ids, kept);
    }
  }

  lemma {:induction false} OneMoreId(ids: seq<nat>, kept: nat)
    requires ids != [] && kept in Front(ids) && Last(ids) !in Front(ids)
    ensures Elements(Front(ids)) - {kept} + {Last(ids)} == Elements(ids) - {kept}
    ensures Elements(Front(ids)) - {kept} + {kept} == Elements(ids) - {Last(ids)}
  {
    assert ids == Front(ids) + [Last(ids)];
  }

  /** Two peers append the same connections between them, each in its own order. Exactly when the one the smaller
      address appends first is the one the larger appends last do both keep it, and it is closed by neither;
      otherwise each side closes what the other keeps, and all of them are closed. */
  lemma {:induction false} BothSidesAgreeIff(small: Addr, large: Addr, atSmall: map<Addr, nat>, atLarge: map<Addr, nat>,
                                             p: seq<nat>, q: seq<nat>)
    requires small < large && large !in atSmall && small !in atLarge
    requires p != [] && q != [] && Distinct(p) && Distinct(q) && Elements(p) == Elements(q)
    ensures var (s, closedBySmall) := AppendAll(atSmall, small, large, p);
            var (l, closedByLarge) := AppendAll(atLarge, large, small, q);
            && large in s && small in l && (s[large] == l[small] <==> p[0] == Last(q))
            && closedBySmall + closedByLarge == (if p[0] == Last(q) then Elements(p) - {p[0]} else Elements(p))
  {
    OneSurvives(atSmall, small, large, p);
    OneSurvives(atLarge, large, small, q);
    assert p[0] in p && Last(q) in q;
  }
}
