/** The iterative node lookup: up to three requests in flight, any network behaviour. */
module Lookup {
  import opened Bytes
  import opened Keys
  import opened RouteTable
  import opened Closest
  import opened LookupTable
  import Ack = Acknowledge

  const ALPHA: nat := 3
  const K: nat := KBUCKET_MAX

  /** The network: given everything so far, which request in flight ends next, and with what answer, if any. */
  datatype Reply = Reply(slot: nat, answer: Option<seq<Node>>)
  type Network = seq<Event> -> Reply

  function AskedKeys(log: seq<Event>): set<Key> {
    if log == [] then {} else AskedKeys(Front(log)) + if Last(log).Asked? then {Last(log).node.id} else {}
  }

  function AnsweredKeys(log: seq<Event>): set<Key> {
    if log == [] then {} else AnsweredKeys(Front(log)) + if Last(log).Answered? then {Last(log).node.id} else {}
  }

  function FailedKeys(log: seq<Event>): set<Key> {
    if log == [] then {} else FailedKeys(Front(log)) + if Last(log).Failed? then {Last(log).node.id} else {}
  }

  function LearntKeys(log: seq<Event>): set<Key> {
    if log == [] then {} else LearntKeys(Front(log)) + if Last(log).Answered? then Ids(Last(log).nodes) else {}
  }

  /** The nodes themselves, addresses included. */
  function LearntNodes(log: seq<Event>): set<Node> {
    if log == [] then {} else LearntNodes(Front(log)) + if Last(log).Answered? then Elements(Last(log).nodes) else {}
  }

  function Elements(s: seq<Node>): set<Node> {
    set n | n in s
  }

  function NodeKeys(nodes: set<Node>): set<Key> {
    set n | n in nodes :: n.id
  }

  /** Requests in flight. */
  function Running(log: seq<Event>): int {
    if log == [] then 0 else Running(Front(log)) + if Last(log).Asked? then 1 else -1
  }

  /** Every node learnt, but the host and those that failed. */
  function Pool(start: set<Node>, host: Key, log: seq<Event>): set<Key> {
    NodeKeys(start) + LearntKeys(log) - {host} - FailedKeys(log)
  }

  lemma {:induction false} LogAppend(log: seq<Event>, e: Event)
    ensures AskedKeys(log + [e]) == AskedKeys(log) + if e.Asked? then {e.node.id} else {}
    ensures AnsweredKeys(log + [e]) == AnsweredKeys(log) + if e.Answered? then {e.node.id} else {}
    ensures FailedKeys(log + [e]) == FailedKeys(log) + if e.Failed? then {e.node.id} else {}
    ensures LearntKeys(log + [e]) == LearntKeys(log) + if e.Answered? then Ids(e.nodes) else {}
    ensures LearntNodes(log + [e]) == LearntNodes(log) + if e.Answered? then Elements(e.nodes) else {}
    ensures Running(log + [e]) == Running(log) + if e.Asked? then 1 else -1
  {
    assert Front(log + [e]) == log && Last(log + [e]) == e;
  }

  predicate InFlight(log: seq<Event>, key: Key) {
    key in AskedKeys(log) && key !in AnsweredKeys(log) && key !in FailedKeys(log)
  }

  /** The discipline of a lookup, event by event: at most three requests in flight; no key asked twice; never the host;
      always one of the closest known nodes not asked yet; and every end is what the network delivered for a request in
      flight. */
  ghost predicate EventOk(start: set<Node>, host: Key, rank: Rank, net: Network, log: seq<Event>, e: Event) {
    match e
    case Asked(n) =>
      && Running(log) < ALPHA && n.id !in AskedKeys(log) && n.id != host && n.id in Pool(start, host, log)
      && forall x :: x in Pool(start, host, log) && x !in AskedKeys(log) ==> rank(n.id) <= rank(x)
    case Answered(n, nodes) => InFlight(log, n.id) && net(log).answer == Some(nodes)
    case Failed(n) => InFlight(log, n.id) && net(log).answer == None
  }

  ghost predicate Disciplined(start: set<Node>, host: Key, rank: Rank, net: Network, log: seq<Event>) {
    forall i {:trigger EventOk(start, host, rank, net, log[..i], log[i])} ::
      0 <= i < |log| ==> EventOk(start, host, rank, net, log[..i], log[i])
  }

  lemma {:induction false} DisciplineAppend(start: set<Node>, host: Key, rank: Rank, net: Network, log: seq<Event>,
                                            e: Event)
    requires Disciplined(start, host, rank, net, log) && EventOk(start, host, rank, net, log, e)
    ensures Disciplined(start, host, rank, net, log + [e])
  {
    forall i | 0 <= i < |log| + 1 ensures EventOk(start, host, rank, net, (log + [e])[..i], (log + [e])[i]) {
      assert (log + [e])[..i] == log[..i];
      if i == |log| { assert log[..i] == log; }
    }
  }

  lemma {:induction false} DisciplinePrefix(start: set<Node>, host: Key, rank: Rank, net: Network, log: seq<Event>,
                                            p: nat)
    requires Disciplined(start, host, rank, net, log) && p <= |log|
    ensures Disciplined(start, host, rank, net, log[..p])
  {
    var q := log[..p];
    forall i | 0 <= i < p ensures EventOk(start, host, rank, net, q[..i], q[i]) {
      assert EventOk(start, host, rank, net, log[..i], log[i]);
      assert q[..i] == log[..i] && q[i] == log[i];
    }
  }

  lemma {:induction false} RunningBound(start: set<Node>, host: Key, rank: Rank, net: Network, log: seq<Event>)
    requires Disciplined(start, host, rank, net, log)
    ensures Running(log) <= ALPHA
    decreases |log|
  {
    if log != [] {
      var before, e := Front(log), Last(log);
      DisciplinePrefix(start, host, rank, net, log, |log| - 1);
      RunningBound(start, host, rank, net, before);
      assert EventOk(start, host, rank, net, before, e);
    }
  }

  /** Hence never more than three requests in flight, at any moment of a lookup. */
  lemma {:induction false} AtMostThreeInFlight(start: set<Node>, host: Key, rank: Rank, net: Network, log: seq<Event>,
                                               p: nat)
    requires Disciplined(start, host, rank, net, log) && p <= |log|
    ensures Running(log[..p]) <= ALPHA
  {
    DisciplinePrefix(start, host, rank, net, log, p);
    RunningBound(start, host, rank, net, log[..p]);
  }

  /** And no key is asked twice, nor the host ever. */
  lemma {:induction false} NeverAskedTwice(start: set<Node>, host: Key, rank: Rank, net: Network, log: seq<Event>)
    requires Disciplined(start, host, rank, net, log)
    ensures forall i, j :: 0 <= i < j < |log| && log[i].Asked? && log[j].Asked? ==> log[i].node.id != log[j].node.id
    ensures forall i :: 0 <= i < |log| && log[i].Asked? ==> log[i].node.id != host
  {
    forall i, j | 0 <= i < j < |log| && log[i].Asked? && log[j].Asked? ensures log[i].node.id != log[j].node.id {
      assert EventOk(start, host, rank, net, log[..j], log[j]);
      AskedStays(log, i, j);
    }
    forall i | 0 <= i < |log| && log[i].Asked? ensures log[i].node.id != host {
      assert EventOk(start, host, rank, net, log[..i], log[i]);
    }
  }

  lemma {:induction false} AskedStays(log: seq<Event>, i: nat, j: nat)
    requires i < j <= |log| && log[i].Asked?
    ensures log[i].node.id in AskedKeys(log[..j])
  {
    assert log[..j] == log[..j - 1] + [log[j - 1]];
    LogAppend(log[..j - 1], log[j - 1]);
    if i < j - 1 { AskedStays(log, i, j - 1); }
  }

  /** The local variables of the loop. */
  datatype Look = Look(candidates: seq<Node>, visited: set<Key>, inflight: seq<Node>, log: seq<Event>)

  /** The keys: candidates are the pool, requests in flight are those asked and not ended. */
  ghost predicate KeysInv(start: set<Node>, host: Key, universe: set<Key>, s: Look) {
    match s
    case Look(candidates, visited, inflight, log) =>
      && DistinctIds(candidates) && Ids(candidates) == Pool(start, host, log)
      && visited == AskedKeys(log) <= NodeKeys(start) + LearntKeys(log) <= universe && host !in visited
      && AnsweredKeys(log) !! FailedKeys(log) && AnsweredKeys(log) + FailedKeys(log) <= visited
      && DistinctIds(inflight) && Ids(inflight) == visited - AnsweredKeys(log) - FailedKeys(log)
      && |inflight| == Running(log) <= ALPHA
  }

  ghost predicate LookInv(start: set<Node>, host: Key, universe: set<Key>, s: Look) {
    KeysInv(start, host, universe, s) && AllKnown(start, s.log, s.candidates) && AllKnown(start, s.log, s.inflight)
  }

  /** Nodes as the table or an answer named them. */
  ghost predicate AllKnown(start: set<Node>, log: seq<Event>, nodes: seq<Node>) {
    forall n :: n in nodes ==> n in start || n in LearntNodes(log)
  }

  function Unvisited(s: seq<Node>, visited: set<Key>): seq<Node> {
    if s == [] then []
    else (if s[0].id in visited then [] else [s[0]]) + Unvisited(s[1..], visited)
  }

  /** `dedup_by`: of neighbours with one id only the first stays. */
  function Dedup(s: seq<Node>): seq<Node>
    decreases |s|
  {
    if |s| <= 1 then s
    else if s[0].id == s[1].id then Dedup([s[0]] + s[2..])
    else [s[0]] + Dedup(s[1..])
  }

  /** The first node of every stretch of neighbours with one id, told from the end of the list. */
  function StretchHeads(s: seq<Node>): seq<Node> {
    if s == [] then []
    else StretchHeads(Front(s)) + if |s| == 1 || Last(s).id != Last(Front(s)).id then [Last(s)] else []
  }

  lemma {:induction false} HeadsSkip(s: seq<Node>)
    requires |s| >= 2 && s[0].id == s[1].id
    ensures StretchHeads(s) == StretchHeads([s[0]] + s[2..])
    decreases |s|
  {
    var t := [s[0]] + s[2..];
    if |s| == 2 {
      assert t == [s[0]] && Front(s) == [s[0]];
    } else {
      HeadsSkip(Front(s));
      assert Front(t) == [Front(s)[0]] + Front(s)[2..];
    }
  }

  lemma {:induction false} HeadsFirst(s: seq<Node>)
    requires |s| >= 2 && s[0].id != s[1].id
    ensures StretchHeads(s) == [s[0]] + StretchHeads(s[1..])
    decreases |s|
  {
    if |s| == 2 {
      assert Front(s) == [s[0]] && s[1..] == [s[1]] && Front([s[1]]) == [] && Front([s[0]]) == [];
      assert StretchHeads([s[0]]) == [s[0]] && StretchHeads([s[1]]) == [s[1]];
    } else {
      HeadsFirst(Front(s));
      assert Front(s)[1..] == Front(s[1..]);
    }
  }

  /** Deduplication of any list keeps exactly those. */
  lemma {:induction false} DedupKeepsHeads(s: seq<Node>)
    ensures Dedup(s) == StretchHeads(s)
    decreases |s|
  {
    if |s| == 1 {
      assert Front(s) == [] && s == [Last(s)];
    } else if |s| > 1 {
      if s[0].id == s[1].id {
        HeadsSkip(s);
        DedupKeepsHeads([s[0]] + s[2..]);
      } else {
        HeadsFirst(s);
        DedupKeepsHeads(s[1..]);
      }
    }
  }

  /** The learnt nodes that are neither the host, nor asked, nor known are appended. */
  function Extend(s: seq<Node>, nodes: seq<Node>, host: Key, visited: set<Key>): seq<Node>
    decreases |nodes|
  {
    if nodes == [] then s
    else
      var n := nodes[0];
      var more := if n.id != host && n.id !in visited && Position(s, n.id).None? then s + [n] else s;
      Extend(more, nodes[1..], host, visited)
  }

  lemma {:induction false} DedupOfDistinct(s: seq<Node>)
    requires DistinctIds(s)
    ensures Dedup(s) == s
  {
    if |s| > 1 { DedupOfDistinct(s[1..]); }
  }

  lemma {:induction false} WithoutFacts(s: seq<Node>, key: Key)
    requires DistinctIds(s)
    ensures DistinctIds(Without(s, key)) && Ids(Without(s, key)) == Ids(s) - {key}
  {
    if s != [] {
      WithoutFacts(s[1..], key);
      IdsOfFirst(s);
      assert s[0].id !in Ids(s[1..]);
      if s[0].id != key {
        HeadDistinct(s[0], Without(s[1..], key));
        IdsOfFirst([s[0]] + Without(s[1..], key));
      } else {
        assert Without(s, key) == Without(s[1..], key);
      }
    }
  }

  lemma {:induction false} IdInIds(s: seq<Node>, key: Key)
    ensures HasKey(s, key) <==> key in Ids(s)
  {
  }

  lemma {:induction false} ExtendFacts(s: seq<Node>, nodes: seq<Node>, host: Key, visited: set<Key>)
    requires DistinctIds(s)
    ensures var r := Extend(s, nodes, host, visited);
            DistinctIds(r) && Ids(r) == Ids(s) + (Ids(nodes) - {host} - visited)
    decreases |nodes|
  {
    if nodes != [] {
      var n := nodes[0];
      IdsOfFirst(nodes);
      IdInIds(s, n.id);
      if n.id != host && n.id !in visited && Position(s, n.id).None? {
        TailDistinct(s, n);
        ExtendFacts(s + [n], nodes[1..], host, visited);
      } else {
        ExtendFacts(s, nodes[1..], host, visited);
      }
    }
  }

  lemma {:induction false} TailDistinct(s: seq<Node>, n: Node)
    requires DistinctIds(s) && n.id !in Ids(s)
    ensures DistinctIds(s + [n]) && Ids(s + [n]) == Ids(s) + {n.id}
  {
    assert forall i :: 0 <= i < |s| ==> s[i].id in Ids(s);
    IdsOfAppend(s, [n]);
    IdsOfFirst([n]);
  }

  lemma {:induction false} NoneUnvisited(s: seq<Node>, visited: set<Key>)
    ensures Unvisited(s, visited) == [] <==> Ids(s) <= visited
  {
    if s != [] {
      IdsOfFirst(s);
      NoneUnvisited(s[1..], visited);
    }
  }

  /** The first unvisited candidate of a sorted list is the closest one. */
  lemma {:induction false} FirstIsClosest(rank: Rank, s: seq<Node>, visited: set<Key>, x: Key)
    requires Sorted(rank, s) && x in Ids(s) && x !in visited
    ensures var u := Unvisited(s, visited);
            u != [] && u[0].id in Ids(s) && u[0].id !in visited && rank(u[0].id) <= rank(x)
  {
    IdsOfFirst(s);
    if s[0].id in visited {
      FirstIsClosest(rank, s[1..], visited, x);
    } else {
      var i :| 0 <= i < |s| && s[i].id == x;
    }
  }

  /** Visiting it leaves the others. */
  lemma {:induction false} VisitFirst(s: seq<Node>, visited: set<Key>)
    requires DistinctIds(s) && Unvisited(s, visited) != []
    ensures var u := Unvisited(s, visited); Unvisited(s, visited + {u[0].id}) == u[1..]
  {
    IdsOfFirst(s);
    assert s[0].id !in Ids(s[1..]);
    if s[0].id in visited {
      VisitFirst(s[1..], visited);
    } else {
      OthersUnvisited(s[1..], visited, s[0].id);
    }
  }

  lemma {:induction false} OthersUnvisited(s: seq<Node>, visited: set<Key>, key: Key)
    requires key !in Ids(s)
    ensures Unvisited(s, visited + {key}) == Unvisited(s, visited)
  {
    if s != [] {
      IdsOfFirst(s);
      OthersUnvisited(s[1..], visited, key);
    }
  }

  /** Asking one candidate. */
  function AskOne(s: Look, target: Node): Look {
    Look(s.candidates, s.visited + {target.id}, s.inflight + [target], s.log + [Asked(target)])
  }

  /** Its request failing. */
  function FailOne(s: Look, target: Node): Look {
    Look(Without(s.candidates, target.id), s.visited, Without(s.inflight, target.id), s.log + [Failed(target)])
  }

  /** Or being answered. */
  function AnswerOne(s: Look, host: Key, target: Node, nodes: seq<Node>): Look {
    Look(Extend(s.candidates, nodes, host, s.visited), s.visited, Without(s.inflight, target.id),
         s.log + [Answered(target, nodes)])
  }

  lemma {:induction false} WithoutElements(s: seq<Node>, key: Key)
    ensures forall n :: n in Without(s, key) ==> n in s
  {
    if s != [] {
      WithoutElements(s[1..], key);
      assert forall n :: n in s[1..] ==> n in s;
    }
  }

  lemma {:induction false} UnvisitedElements(s: seq<Node>, visited: set<Key>)
    ensures forall n :: n in Unvisited(s, visited) ==> n in s
  {
    if s != [] {
      UnvisitedElements(s[1..], visited);
      assert forall n :: n in s[1..] ==> n in s;
    }
  }

  lemma {:induction false} ExtendElements(s: seq<Node>, nodes: seq<Node>, host: Key, visited: set<Key>)
    ensures forall n :: n in Extend(s, nodes, host, visited) ==> n in s || n in nodes
    decreases |nodes|
  {
    if nodes != [] {
      var n := nodes[0];
      var more := if n.id != host && n.id !in visited && Position(s, n.id).None? then s + [n] else s;
      ExtendElements(more, nodes[1..], host, visited);
      assert forall m :: m in nodes[1..] ==> m in nodes;
      assert forall m :: m in more ==> m in s || m == n;
    }
  }

  lemma {:induction false} SortElements(rank: Rank, s: seq<Node>)
    ensures forall n :: n in Sort(rank, s) ==> n in s
  {
    SortFacts(rank, s);
    forall n | n in Sort(rank, s) ensures n in s {
      assert n in multiset(Sort(rank, s));
      assert n in multiset(s);
    }
  }

  /** What was known stays known, and what an answer names becomes known. */
  lemma {:induction false} KnownGrows(start: set<Node>, log: seq<Event>, e: Event, nodes: seq<Node>, more: seq<Node>)
    requires AllKnown(start, log, nodes)
    requires forall n :: n in more ==> n in nodes || (e.Answered? && n in e.nodes)
    ensures AllKnown(start, log + [e], more)
  {
    LogAppend(log, e);
  }

  lemma {:induction false} AskKeepsKeys(start: set<Node>, host: Key, universe: set<Key>, s: Look, node: Node,
                                        more: seq<Event>)
    requires KeysInv(start, host, universe, s) && |s.inflight| < ALPHA
    requires node.id in Ids(s.candidates) && node.id !in s.visited
    requires AskedKeys(more) == AskedKeys(s.log) + {node.id} && Running(more) == Running(s.log) + 1
    requires AnsweredKeys(more) == AnsweredKeys(s.log) && FailedKeys(more) == FailedKeys(s.log)
    requires LearntKeys(more) == LearntKeys(s.log)
    ensures KeysInv(start, host, universe, Look(s.candidates, s.visited + {node.id}, s.inflight + [node], more))
    ensures |universe - (s.visited + {node.id})| == |universe - s.visited| - 1
  {
    TailDistinct(s.inflight, node);
    assert universe - (s.visited + {node.id}) == (universe - s.visited) - {node.id};
  }

  /** Sending one request. */
  lemma {:induction false} AskKeeps(start: set<Node>, host: Key, rank: Rank, net: Network, universe: set<Key>,
                                    s: Look, node: Node)
    requires LookInv(start, host, universe, s) && Disciplined(start, host, rank, net, s.log)
    requires |s.inflight| < ALPHA && node in s.candidates && node.id in Ids(s.candidates) && node.id !in s.visited
    requires forall x :: x in Ids(s.candidates) && x !in s.visited ==> rank(node.id) <= rank(x)
    ensures var t := AskOne(s, node);
            && LookInv(start, host, universe, t) && Disciplined(start, host, rank, net, t.log)
            && |universe - t.visited| == |universe - s.visited| - 1
  {
    LogAppend(s.log, Asked(node));
    AskKeepsKeys(start, host, universe, s, node, s.log + [Asked(node)]);
    KnownGrows(start, s.log, Asked(node), s.candidates, s.candidates);
    KnownGrows(start, s.log, Asked(node), s.inflight + [node], s.inflight + [node]);
    DisciplineAppend(start, host, rank, net, s.log, Asked(node));
  }

  lemma {:induction false} FailKeepsKeys(start: set<Node>, host: Key, universe: set<Key>, s: Look, target: Node)
    requires KeysInv(start, host, universe, s) && target.id in Ids(s.inflight)
    ensures var t := FailOne(s, target); KeysInv(start, host, universe, t) && |t.inflight| == |s.inflight| - 1
  {
    LogAppend(s.log, Failed(target));
    WithoutFacts(s.candidates, target.id);
    WithoutSize(s.inflight, target.id);
  }

  /** A request that failed: the node leaves the candidates for good. */
  lemma {:induction false} FailKeeps(start: set<Node>, host: Key, rank: Rank, net: Network, universe: set<Key>,
                                     s: Look, target: Node)
    requires LookInv(start, host, universe, s) && Disciplined(start, host, rank, net, s.log)
    requires target.id in Ids(s.inflight) && net(s.log).answer == None
    ensures var t := FailOne(s, target);
            && LookInv(start, host, universe, t) && Disciplined(start, host, rank, net, t.log)
            && |t.inflight| == |s.inflight| - 1
  {
    FailKeepsKeys(start, host, universe, s, target);
    DisciplineAppend(start, host, rank, net, s.log, Failed(target));
    WithoutElements(s.candidates, target.id);
    WithoutElements(s.inflight, target.id);
    KnownGrows(start, s.log, Failed(target), s.candidates, Without(s.candidates, target.id));
    KnownGrows(start, s.log, Failed(target), s.inflight, Without(s.inflight, target.id));
  }

  lemma {:induction false} AnswerKeepsKeys(start: set<Node>, host: Key, universe: set<Key>, s: Look, target: Node,
                                           nodes: seq<Node>)
    requires KeysInv(start, host, universe, s) && target.id in Ids(s.inflight) && Ids(nodes) <= universe
    ensures var t := AnswerOne(s, host, target, nodes);
            KeysInv(start, host, universe, t) && |t.inflight| == |s.inflight| - 1
  {
    LogAppend(s.log, Answered(target, nodes));
    ExtendFacts(s.candidates, nodes, host, s.visited);
    WithoutSize(s.inflight, target.id);
    var more := Ids(nodes) - {host};
    assert more - FailedKeys(s.log) <= Ids(s.candidates) + (more - s.visited);
  }

  /** A request that was answered: new nodes become candidates. */
  lemma {:induction false} AnswerKeeps(start: set<Node>, host: Key, rank: Rank, net: Network, universe: set<Key>,
                                       s: Look, target: Node, nodes: seq<Node>)
    requires LookInv(start, host, universe, s) && Disciplined(start, host, rank, net, s.log)
    requires target.id in Ids(s.inflight) && net(s.log).answer == Some(nodes) && Ids(nodes) <= universe
    ensures var t := AnswerOne(s, host, target, nodes);
            && LookInv(start, host, universe, t) && Disciplined(start, host, rank, net, t.log)
            && |t.inflight| == |s.inflight| - 1
  {
    var e := Answered(target, nodes);
    AnswerKeepsKeys(start, host, universe, s, target, nodes);
    DisciplineAppend(start, host, rank, net, s.log, e);
    ExtendElements(s.candidates, nodes, host, s.visited);
    WithoutElements(s.inflight, target.id);
    KnownGrows(start, s.log, e, s.candidates, Extend(s.candidates, nodes, host, s.visited));
    KnownGrows(start, s.log, e, s.inflight, Without(s.inflight, target.id));
  }

  lemma {:induction false} WithoutSize(s: seq<Node>, key: Key)
    requires DistinctIds(s) && key in Ids(s)
    ensures DistinctIds(Without(s, key)) && Ids(Without(s, key)) == Ids(s) - {key} && |Without(s, key)| == |s| - 1
  {
    WithoutFacts(s, key);
    IdsSize(s);
    IdsSize(Without(s, key));
  }

  lemma {:induction false} SortKeeps(start: set<Node>, host: Key, rank: Rank, universe: set<Key>, s: Look)
    requires LookInv(start, host, universe, s)
    ensures LookInv(start, host, universe, s.(candidates := Sort(rank, s.candidates)))
    ensures Sorted(rank, Sort(rank, s.candidates)) && Dedup(Sort(rank, s.candidates)) == Sort(rank, s.candidates)
  {
    SortFacts(rank, s.candidates);
    SortIds(rank, s.candidates);
    SortElements(rank, s.candidates);
    DedupOfDistinct(Sort(rank, s.candidates));
  }

  ghost predicate Good(start: set<Node>, host: Key, rank: Rank, net: Network, universe: set<Key>, s: Look) {
    LookInv(start, host, universe, s) && Disciplined(start, host, rank, net, s.log)
  }

  /** Nothing is in flight and the first twenty candidates, in order of distance, have been asked. */
  predicate Settled(s: Look) {
    s.inflight == [] && forall i :: 0 <= i < Min(K, |s.candidates|) ==> s.candidates[i].id in s.visited
  }

  /** Bounds the rounds still to come: two for every key not asked yet, one for every request in flight. */
  ghost function Remaining(universe: set<Key>, s: Look): nat {
    2 * |universe - s.visited| + |s.inflight|
  }

  lemma {:induction false} AllAskedSettles(s: Look)
    requires s.inflight == [] && Ids(s.candidates) <= s.visited
    ensures Settled(s)
  {
    forall i | 0 <= i < |s.candidates| ensures s.candidates[i].id in s.visited {
      assert s.candidates[i].id in Ids(s.candidates);
    }
  }

  /** Asking the first unvisited candidate. */
  lemma {:induction false} AskFirst(start: set<Node>, host: Key, rank: Rank, net: Network, universe: set<Key>, s: Look,
                                    target: Node)
    requires Good(start, host, rank, net, universe, s) && Sorted(rank, s.candidates) && |s.inflight| < ALPHA
    requires Unvisited(s.candidates, s.visited) != [] && target == Unvisited(s.candidates, s.visited)[0]
    ensures var t := AskOne(s, target);
            && Good(start, host, rank, net, universe, t)
            && |universe - t.visited| == |universe - s.visited| - 1
            && Unvisited(t.candidates, t.visited) == Unvisited(s.candidates, s.visited)[1..]
  {
    VisitFirst(s.candidates, s.visited);
    UnvisitedElements(s.candidates, s.visited);
    NoneUnvisited(s.candidates, s.visited);
    var y :| y in Ids(s.candidates) && y !in s.visited;
    FirstIsClosest(rank, s.candidates, s.visited, y);
    forall x | x in Ids(s.candidates) && x !in s.visited ensures rank(target.id) <= rank(x) {
      FirstIsClosest(rank, s.candidates, s.visited, x);
    }
    AskKeeps(start, host, rank, net, universe, s, target);
  }

  /** The keys of the ends, and why there is one end to a request at most. */
  lemma {:induction false} EndedKeys(start: set<Node>, host: Key, rank: Rank, net: Network, log: seq<Event>)
    requires Disciplined(start, host, rank, net, log)
    ensures EndsOk(host, Ends(log)) && host !in AskedKeys(log)
    ensures forall p :: 0 <= p < |Ends(log)| ==> Ends(log)[p].node.id in AnsweredKeys(log) + FailedKeys(log)
    decreases |log|
  {
    if log != [] {
      var before, e := Front(log), Last(log);
      DisciplinePrefix(start, host, rank, net, log, |log| - 1);
      EndedKeys(start, host, rank, net, before);
      assert EventOk(start, host, rank, net, before, e);
      assert log == before + [e];
      LogAppend(before, e);
    }
  }

  ghost predicate SameEnds(log: seq<Event>, more: seq<Event>) {
    Ends(more) == Ends(log)
  }

  lemma {:induction false} AskKeepsEnds(first: seq<Event>, log: seq<Event>, node: Node)
    requires SameEnds(first, log)
    ensures SameEnds(first, log + [Asked(node)])
  {
    assert Front(log + [Asked(node)]) == log;
  }

  lemma {:induction false} EndAdds(first: seq<Event>, log: seq<Event>, e: Event)
    requires SameEnds(first, log) && !e.Asked?
    ensures Ends(log + [e]) == Ends(first) + [e]
  {
    assert Front(log + [e]) == log;
  }

  /** One request of a batch. */
  method AskNext(ghost start: set<Node>, ghost host: Key, ghost rank: Rank, ghost net: Network,
                 ghost universe: set<Key>, s: Look, target: Node) returns (t: Look)
    requires Good(start, host, rank, net, universe, s) && Sorted(rank, s.candidates) && |s.inflight| < ALPHA
    requires Unvisited(s.candidates, s.visited) != [] && target == Unvisited(s.candidates, s.visited)[0]
    ensures Good(start, host, rank, net, universe, t) && t.candidates == s.candidates
    ensures |t.inflight| == |s.inflight| + 1 && |universe - t.visited| == |universe - s.visited| - 1
    ensures Unvisited(t.candidates, t.visited) == Unvisited(s.candidates, s.visited)[1..]
    ensures SameEnds(s.log, t.log)
  {
    AskFirst(start, host, rank, net, universe, s, target);
    AskKeepsEnds(s.log, s.log, target);
    t := AskOne(s, target);
  }

  lemma {:induction false} NothingToAsk(s: Look)
    requires s.inflight == [] && Unvisited(s.candidates, s.visited) == []
    ensures Settled(s)
  {
    NoneUnvisited(s.candidates, s.visited);
    AllAskedSettles(s);
  }

  /** Taking the first of what is left of a list. */
  lemma {:induction false} FirstLeft(all: seq<Node>, j: nat)
    requires j < |all|
    ensures all[j..] != [] && all[j..][0] == all[j] && all[j..][1..] == all[j + 1..]
  {
  }

  /** One batch of requests. */
  method AskBatch(ghost start: set<Node>, ghost host: Key, ghost rank: Rank, ghost net: Network,
                  ghost universe: set<Key>, s: Look) returns (t: Look)
    requires Good(start, host, rank, net, universe, s) && Sorted(rank, s.candidates)
    ensures Good(start, host, rank, net, universe, t) && t.candidates == s.candidates
    ensures Remaining(universe, t) <= Remaining(universe, s)
    ensures t.inflight == [] ==> Settled(t)
    ensures SameEnds(s.log, t.log)
  {
    var take := Max(ALPHA - |s.inflight|, 0);
    var unvisited := Unvisited(s.candidates, s.visited);
    var batch := unvisited[..Min(take, |unvisited|)];
    t := s;
    for j := 0 to |batch|
      invariant Good(start, host, rank, net, universe, t)
      invariant t.candidates == s.candidates && |t.inflight| == |s.inflight| + j
      invariant Unvisited(t.candidates, t.visited) == unvisited[j..]
      invariant |universe - t.visited| == |universe - s.visited| - j
      invariant SameEnds(s.log, t.log)
    {
      FirstLeft(unvisited, j);
      t := AskNext(start, host, rank, net, universe, t, batch[j]);
    }
    if t.inflight == [] { NothingToAsk(t); }
  }

  /** When nothing is in flight and the first twenty candidates have been asked, they have all answered, and they are
      the twenty closest of everything learnt that did not fail. */
  lemma {:induction false} Finished(start: set<Node>, host: Key, rank: Rank, universe: set<Key>, s: Look)
    requires LookInv(start, host, universe, s) && s.inflight == [] && Sorted(rank, s.candidates)
    requires Settled(s)
    ensures var r := s.candidates[..Min(K, |s.candidates|)];
            IsClosest(rank, r, Pool(start, host, s.log), K) && Ids(r) <= AnsweredKeys(s.log)
  {
    TakeIsClosest(rank, s.candidates, K);
    var r := s.candidates[..Min(K, |s.candidates|)];
    forall x | x in Ids(r) ensures x in AnsweredKeys(s.log) {
      var i :| 0 <= i < |r| && r[i].id == x;
      assert s.candidates[i].id in Ids(s.candidates);
      assert Ids(s.inflight) == {};
    }
  }

  /** The next request in flight ends: a node that failed leaves the candidates, the unknown nodes of an answer join
      them. */
  method Receive(net: Network, ghost start: set<Node>, host: Key, ghost rank: Rank, ghost universe: set<Key>, s: Look)
    returns (t: Look, end: Event)
    requires Good(start, host, rank, net, universe, s) && s.inflight != []
    requires forall l, nodes :: net(l).answer == Some(nodes) ==> Ids(nodes) <= universe
    ensures Good(start, host, rank, net, universe, t)
    ensures t.visited == s.visited && |t.inflight| == |s.inflight| - 1
    ensures !end.Asked? && t.log == s.log + [end]
  {
    var reply := net(s.log);
    var target := s.inflight[reply.slot % |s.inflight|];
    assert target.id in Ids(s.inflight);
    match reply.answer
    case None =>
      FailKeeps(start, host, rank, net, universe, s, target);
      t, end := FailOne(s, target), Failed(target);
    case Some(nodes) =>
      AnswerKeeps(start, host, rank, net, universe, s, target, nodes);
      t, end := AnswerOne(s, host, target, nodes), Answered(target, nodes);
  }

  /** What the end of a request does to the table: a node that failed leaves it, one that answered is acknowledged. */
  method ApplyEnd(table: RouteTable, end: Event, ping: nat -> bool)
    requires table.Valid() && Inv(table.sha, table.model) && !end.Asked?
    modifies table, table.kbuckets
    ensures table.Valid() && Inv(table.sha, table.model) && table.kbuckets == old(table.kbuckets)
    ensures table.model == TableStep(table.sha, old(table.model), end, ping)
    ensures end.Failed? ==> !HasNode(table.model, end.node.id)
    ensures end.Answered? && end.node.id != table.host.id ==>
              (HasNode(table.model, end.node.id) <==> GetsIn(table.sha, old(table.model), end.node, ping))
  {
    match end
    case Failed(target) =>
      FailedLeaves(table.sha, table.model, target, ping);
      table.Remove(target);
    case Answered(target, _) =>
      ghost var index := BucketIndex(table.sha, table.host.id, target.id);
      assert BucketOk(table.sha, table.host.id, table.model.buckets[index], index);
      if target.id != table.host.id { AnsweredStays(table.sha, table.model, target, end.nodes, ping); }
      var _ := Ack.Acknowledge(table, target, ping);
  }

  /** Which keys the table `u` holds after a lookup, told from the table `t` before and the events: the ends of the
      requests, all of them and each once, tell it. */
  ghost predicate TableTold(sha: Sha, t: Table, log: seq<Event>, ping: nat -> (nat -> bool), u: Table) {
    && (forall e :: e in Ends(log) <==> e in log && !e.Asked?)
    && Inv(sha, t) && EndsOk(t.host.id, Ends(log)) && Tells(sha, t, Ends(log), ping, u)
  }

  lemma {:induction false} TellTable(start: set<Node>, sha: Sha, t: Table, rank: Rank, net: Network, log: seq<Event>,
                                     ping: nat -> (nat -> bool))
    requires Inv(sha, t) && Disciplined(start, t.host.id, rank, net, log)
    ensures TableTold(sha, t, log, ping, TableAfter(sha, t, Ends(log), ping))
  {
    EndedKeys(start, t.host.id, rank, net, log);
    TableOutcome(sha, t, Ends(log), ping);
    EndsAre(log);
  }

  /** `Kademlia::node_lookup`, for every network whose answers name keys of some finite set, and every outcome of the
      pings its acknowledgements send. */
  method NodeLookup(table: RouteTable, lookupKey: Key, net: Network, ping: nat -> (nat -> bool),
                    ghost universe: set<Key>)
    returns (result: seq<Node>, log: seq<Event>, ghost start: set<Node>)
    requires table.Valid() && Inv(table.sha, table.model)
    requires Ids(NodesFrom(table.model.buckets)) <= universe
    requires forall l, nodes :: net(l).answer == Some(nodes) ==> Ids(nodes) <= universe
    modifies table, table.kbuckets
    // it starts from the twenty closest nodes of the table
    ensures exists first :: Elements(first) == start && start <= Elements(NodesFrom(old(table.model).buckets)) &&
              IsClosest(DistanceTo(table.sha, lookupKey), first, Ids(NodesFrom(old(table.model).buckets)), K)
    ensures Disciplined(start, table.host.id, DistanceTo(table.sha, lookupKey), net, log)
    // every returned node has answered, and they are the closest of all learnt and not failed
    ensures Ids(result) <= AnsweredKeys(log)
    ensures IsClosest(DistanceTo(table.sha, lookupKey), result, Pool(start, table.host.id, log), K)
    // each as the table or an answer named it, address included
    ensures AllKnown(start, log, result)
    ensures Running(log) == 0 && AskedKeys(log) <= universe
    // the table has seen exactly the ends of the requests, one to a request: no node that failed is in it, every node
    // that answered is unless it was turned away or failed a ping since, and the others stay unless they fail a ping
    ensures table.Valid() && Inv(table.sha, table.model)
    ensures table.model == TableAfter(table.sha, old(table.model), Ends(log), ping)
    ensures TableTold(table.sha, old(table.model), log, ping, table.model)
  {
    var first := GetClosestNodes(table, lookupKey, K);
    start := Elements(first);
    KeysOfElements(first);
    StartOk(start, table.host.id, universe, first);
    result, log := SearchFrom(table, net, ping, start, DistanceTo(table.sha, lookupKey), universe, first);
    TellTable(start, table.sha, old(table.model), DistanceTo(table.sha, lookupKey), net, log, ping);
  }

  /** The rest of it, from the first candidates on. */
  method SearchFrom(table: RouteTable, net: Network, ping: nat -> (nat -> bool), ghost start: set<Node>, rank: Rank,
                    ghost universe: set<Key>, first: seq<Node>) returns (result: seq<Node>, log: seq<Event>)
    requires table.Valid() && Inv(table.sha, table.model)
    requires LookInv(start, table.host.id, universe, Look(first, {}, [], []))
    requires forall l, nodes :: net(l).answer == Some(nodes) ==> Ids(nodes) <= universe
    modifies table, table.kbuckets
    ensures table.Valid() && Inv(table.sha, table.model)
    ensures Disciplined(start, table.host.id, rank, net, log)
    ensures Ids(result) <= AnsweredKeys(log) && IsClosest(rank, result, Pool(start, table.host.id, log), K)
    ensures AllKnown(start, log, result) && Running(log) == 0 && AskedKeys(log) <= universe
    ensures table.model == TableAfter(table.sha, old(table.model), Ends(log), ping)
  {
    var s := Search(table, net, ping, start, rank, universe, Look(first, {}, [], []));
    Finished(start, table.host.id, rank, universe, s);
    result, log := s.candidates[..Min(KBUCKET_MAX, |s.candidates|)], s.log;
  }

  lemma {:induction false} KeysOfElements(s: seq<Node>)
    ensures NodeKeys(Elements(s)) == Ids(s)
  {
    forall k | k in Ids(s) ensures k in NodeKeys(Elements(s)) {
      var i :| 0 <= i < |s| && s[i].id == k;
      assert s[i] in Elements(s);
    }
  }

  /** Sorting the candidates, and dropping neighbours with one id: the list keeps its ids. */
  method Arrange(rank: Rank, ghost start: set<Node>, ghost host: Key, ghost universe: set<Key>, s: Look, dedup: bool)
    returns (t: Look)
    requires LookInv(start, host, universe, s)
    ensures LookInv(start, host, universe, t) && Sorted(rank, t.candidates)
    ensures t == s.(candidates := t.candidates)
  {
    SortKeeps(start, host, rank, universe, s);
    var sorted := Sort(rank, s.candidates);
    t := s.(candidates := if dedup then Dedup(sorted) else sorted);
  }

  /** The first half of a round: sort, drop duplicates, send what three slots allow. */
  method SendHalf(ghost start: set<Node>, ghost host: Key, rank: Rank, ghost net: Network, ghost universe: set<Key>,
                  s: Look) returns (t: Look)
    requires Good(start, host, rank, net, universe, s)
    ensures Good(start, host, rank, net, universe, t) && Sorted(rank, t.candidates)
    ensures Remaining(universe, t) <= Remaining(universe, s) && (t.inflight == [] ==> Settled(t))
    ensures SameEnds(s.log, t.log)
  {
    t := Arrange(rank, start, host, universe, s, true);
    t := AskBatch(start, host, rank, net, universe, t);
  }

  /** The second half: take the next end, sort again. */
  method ReceiveHalf(net: Network, ghost start: set<Node>, host: Key, rank: Rank, ghost universe: set<Key>, s: Look)
    returns (t: Look, end: Event)
    requires Good(start, host, rank, net, universe, s) && s.inflight != []
    requires forall l, nodes :: net(l).answer == Some(nodes) ==> Ids(nodes) <= universe
    ensures Good(start, host, rank, net, universe, t) && Sorted(rank, t.candidates)
    ensures Remaining(universe, t) < Remaining(universe, s)
    ensures !end.Asked? && t.log == s.log + [end]
  {
    t, end := Receive(net, start, host, rank, universe, s);
    t := Arrange(rank, start, host, universe, t, false);
  }

  /** One pass of the loop body, but for the table: it ends the lookup or brings it nearer to its end. */
  method Round(net: Network, ghost start: set<Node>, host: Key, rank: Rank, ghost universe: set<Key>, s: Look)
    returns (t: Look, end: Option<Event>)
    requires Good(start, host, rank, net, universe, s)
    requires forall l, nodes :: net(l).answer == Some(nodes) ==> Ids(nodes) <= universe
    ensures Good(start, host, rank, net, universe, t) && Sorted(rank, t.candidates)
    ensures Settled(t) || Remaining(universe, t) < Remaining(universe, s)
    ensures end.None? ==> Ends(t.log) == Ends(s.log)
    ensures end.Some? ==> !end.value.Asked? && Ends(t.log) == Ends(s.log) + [end.value]
  {
    var sent := SendHalf(start, host, rank, net, universe, s);
    if sent.inflight == [] {
      return sent, None;
    }
    var e;
    t, e := ReceiveHalf(net, start, host, rank, universe, sent);
    EndAdds(s.log, sent.log, e);
    end := Some(e);
  }

  /** The table is what the ends so far, `ended` in number, have made of `t0`. */
  ghost predicate Follows(sha: Sha, t0: Table, ping: nat -> (nat -> bool), log: seq<Event>, ended: nat, t: Table) {
    ended == |Ends(log)| && t == TableAfter(sha, t0, Ends(log), ping)
  }

  /** The table part of a pass. */
  method ApplyIfAny(table: RouteTable, ping: nat -> (nat -> bool), end: Option<Event>, ended: nat,
                    ghost t0: Table, ghost before: seq<Event>, ghost after: seq<Event>) returns (newEnded: nat)
    requires table.Valid() && Inv(table.sha, table.model)
    requires Follows(table.sha, t0, ping, before, ended, table.model)
    requires end.None? ==> Ends(after) == Ends(before)
    requires end.Some? ==> !end.value.Asked? && Ends(after) == Ends(before) + [end.value]
    modifies table, table.kbuckets
    ensures table.Valid() && Inv(table.sha, table.model) && table.kbuckets == old(table.kbuckets)
    ensures Follows(table.sha, t0, ping, after, newEnded, table.model)
  {
    newEnded := ended;
    if end.Some? {
      TableAfterEnd(table.sha, t0, Ends(before), end.value, ping);
      ApplyEnd(table, end.value, ping(ended));
      newEnded := ended + 1;
    }
  }

  /** One pass of the loop body. */
  method Pass(table: RouteTable, net: Network, ping: nat -> (nat -> bool), ghost start: set<Node>, rank: Rank,
              ghost universe: set<Key>, ghost t0: Table, s: Look, ended: nat) returns (t: Look, newEnded: nat)
    requires table.Valid() && Inv(table.sha, table.model) && Good(start, table.host.id, rank, net, universe, s)
    requires Follows(table.sha, t0, ping, s.log, ended, table.model)
    requires forall l, nodes :: net(l).answer == Some(nodes) ==> Ids(nodes) <= universe
    modifies table, table.kbuckets
    ensures table.Valid() && Inv(table.sha, table.model) && table.kbuckets == old(table.kbuckets)
    ensures Good(start, table.host.id, rank, net, universe, t) && Sorted(rank, t.candidates)
    ensures Settled(t) || Remaining(universe, t) < Remaining(universe, s)
    ensures Follows(table.sha, t0, ping, t.log, newEnded, table.model)
  {
    var end;
    t, end := Round(net, start, table.host.id, rank, universe, s);
    newEnded := ApplyIfAny(table, ping, end, ended, t0, s.log, t.log);
  }

  /** The loop of a lookup. */
  method Search(table: RouteTable, net: Network, ping: nat -> (nat -> bool), ghost start: set<Node>, rank: Rank,
                ghost universe: set<Key>, begin: Look) returns (s: Look)
    requires table.Valid() && Inv(table.sha, table.model) && Good(start, table.host.id, rank, net, universe, begin)
    requires forall l, nodes :: net(l).answer == Some(nodes) ==> Ids(nodes) <= universe
    requires begin.log == []
    modifies table, table.kbuckets
    ensures table.Valid() && Inv(table.sha, table.model)
    ensures Good(start, table.host.id, rank, net, universe, s) && Sorted(rank, s.candidates) && Settled(s)
    ensures table.model == TableAfter(table.sha, old(table.model), Ends(s.log), ping)
  {
    var done, ended := false, 0;
    s := begin;
    while !done
      invariant table.Valid() && Inv(table.sha, table.model) && table.kbuckets == old(table.kbuckets)
      invariant Good(start, table.host.id, rank, net, universe, s)
      invariant done ==> Sorted(rank, s.candidates) && Settled(s)
      invariant Follows(table.sha, old(table.model), ping, s.log, ended, table.model)
      decreases !done, Remaining(universe, s)
    {
      s, ended := Pass(table, net, ping, start, rank, universe, old(table.model), s, ended);
      done := Settled(s);
    }
  }

  lemma {:induction false} StartOk(start: set<Node>, host: Key, universe: set<Key>, first: seq<Node>)
    requires DistinctIds(first) && start == Elements(first) && NodeKeys(start) == Ids(first) <= universe
    requires host !in Ids(first)
    ensures LookInv(start, host, universe, Look(first, {}, [], []))
  {
    assert Ids([]) == {};
  }
}
