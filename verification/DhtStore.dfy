/** The bounded key-value store of the DHT: an insertion-ordered map with expiry, eviction and pruning. */
module DhtStore {
  import opened Bytes

  const MAX_STORE_ENTRIES: nat := 10_000
  const DEFAULT_TTL: nat := 35 * 60

  datatype KademliaData = Peers(peers: set<int>) | I2Peers(dests: set<string>) | Value(bytes: seq<byte>)

  /** `KademliaData::merge`: only two peer sets are united; anything else is overwritten. */
  function Merge(existing: KademliaData, new_: KademliaData): KademliaData {
    if existing.Peers? && new_.Peers? then Peers(existing.peers + new_.peers) else new_
  }

  datatype Entry<K> = Entry(key: K, data: KademliaData, expires: nat)

  /** Position of the first entry with this key. */
  function Position<K(==)>(s: seq<Entry<K>>, key: K): (p: Option<nat>)
    ensures p.Some? ==> p.value < |s| && s[p.value].key == key
    ensures p.None? ==> forall i :: 0 <= i < |s| ==> s[i].key != key
  {
    if s == [] then None
    else if s[0].key == key then Some(0)
    else match Position(s[1..], key)
      case Some(p) => Some(p + 1)
      case None => None
  }

  function Insert<K(==)>(s: seq<Entry<K>>, key: K, data: KademliaData, now: nat): seq<Entry<K>> {
    match Position(s, key)
    case Some(p) => s[..p] + s[p + 1..] + [Entry(key, Merge(s[p].data, data), now + DEFAULT_TTL)]
    case None =>
      (if |s| >= MAX_STORE_ENTRIES then s[1..] else s) + [Entry(key, data, now + DEFAULT_TTL)]
  }

  function Prune<K>(s: seq<Entry<K>>, now: nat): seq<Entry<K>> {
    if s == [] then []
    else (if s[0].expires > now then [s[0]] else []) + Prune(s[1..], now)
  }

  function Get<K(==)>(s: seq<Entry<K>>, key: K, now: nat): Option<KademliaData> {
    match Position(s, key)
    case Some(p) => if now > s[p].expires then None else Some(s[p].data)
    case None => None
  }

  lemma {:induction false} PruneStep<K>(s: seq<Entry<K>>, i: nat, now: nat, kept: seq<Entry<K>>)
    requires i < |s|
    ensures kept + Prune(s[i..], now) == (kept + if s[i].expires > now then [s[i]] else []) + Prune(s[i + 1..], now)
  {
    assert s[i..][1..] == s[i + 1..];
  }

  class DHTStore<K(==)> {
    var store: seq<Entry<K>>
    var maxEntries: nat

    constructor ()
      ensures store == [] && maxEntries == MAX_STORE_ENTRIES
    {
      store, maxEntries := [], MAX_STORE_ENTRIES;
    }

    /** `DHTStore::insert` at time `now`. */
    method InsertEntry(key: K, value: KademliaData, now: nat)
      requires maxEntries == MAX_STORE_ENTRIES
      modifies this`store
      ensures store == Insert(old(store), key, value, now)
    {
      var expiry := now + DEFAULT_TTL;
      var found := Position(store, key);
      if found.Some? {
        var p := found.value;
        store := store[p := Entry(key, Merge(store[p].data, value), expiry)];
        var owned := store[p];
        store := store[..p] + store[p + 1..];
        store := store + [owned];
        return;
      }
      if |store| >= maxEntries {
        store := store[1..];
      }
      store := store + [Entry(key, value, expiry)];
    }

    /** `DHTStore::prune` at time `now`. */
    method PruneExpired(now: nat)
      modifies this`store
      ensures store == Prune(old(store), now)
    {
      var kept := [];
      for i := 0 to |store|
        invariant store == old(store)
        invariant kept + Prune(store[i..], now) == Prune(store, now)
      {
        PruneStep(store, i, now, kept);
        if store[i].expires > now {
          kept := kept + [store[i]];
        } else {
          assert kept + [] == kept;
        }
      }
      store := kept;
    }

    /** `DHTStore::get` at time `now`. */
    method Lookup(key: K, now: nat) returns (r: Option<KademliaData>)
      ensures r == Get(store, key, now)
    {
      var found := Position(store, key);
      if found.None? || now > store[found.value].expires {
        return None;
      }
      return Some(store[found.value].data);
    }
  }

  ghost predicate DistinctKeys<K(!new)>(s: seq<Entry<K>>) {
    forall i, j :: 0 <= i < j < |s| ==> s[i].key != s[j].key
  }

  ghost predicate Ordered<K(!new)>(s: seq<Entry<K>>) {
    forall i, j :: 0 <= i <= j < |s| ==> s[i].expires <= s[j].expires
  }

  lemma {:induction false} PositionUnique<K(!new)>(s: seq<Entry<K>>, key: K, p: nat)
    requires DistinctKeys(s) && p < |s| && s[p].key == key
    ensures Position(s, key) == Some(p)
  {
    var q := Position(s, key);
    assert q.Some? && s[q.value].key == s[p].key;
  }

  lemma {:induction false} NothingToPrune<K(!new)>(s: seq<Entry<K>>, now: nat)
    requires forall i :: 0 <= i < |s| ==> s[i].expires > now
    ensures Prune(s, now) == s
  {
    if s != [] { NothingToPrune(s[1..], now); }
  }

  /** On an ordered store pruning drops a prefix: exactly the entries that expire at or before `now`. */
  lemma {:induction false} PruneDropsPrefix<K(!new)>(s: seq<Entry<K>>, now: nat) returns (d: nat)
    requires Ordered(s)
    ensures d <= |s| && Prune(s, now) == s[d..]
    ensures forall i :: 0 <= i < d ==> s[i].expires <= now
    ensures forall i :: d <= i < |s| ==> s[i].expires > now
  {
    if s == [] || s[0].expires > now {
      NothingToPrune(s, now);
      d := 0;
    } else {
      var rest := s[1..];
      var e := PruneDropsPrefix(rest, now);
      d := e + 1;
      assert rest[e..] == s[d..];
      forall i | 0 <= i < d ensures s[i].expires <= now {
        if i > 0 { assert rest[i - 1] == s[i]; }
      }
      forall i | d <= i < |s| ensures s[i].expires > now { assert rest[i - 1] == s[i]; }
    }
  }

  lemma {:induction false} GetAt<K(!new)>(s: seq<Entry<K>>, p: nat, now: nat)
    requires DistinctKeys(s) && p < |s|
    ensures Get(s, s[p].key, now) == if now > s[p].expires then None else Some(s[p].data)
  {
    PositionUnique(s, s[p].key, p);
  }

  lemma {:induction false} GetAbsent<K(!new)>(s: seq<Entry<K>>, key: K, now: nat)
    requires forall i :: 0 <= i < |s| ==> s[i].key != key
    ensures Get(s, key, now) == None
  {
  }

  /** From the moment of a prune on, an answer changes exactly for an entry expiring at that very second, and only
      within that second. */
  lemma {:induction false} PruneUnseen<K(!new)>(s: seq<Entry<K>>, key: K, at: nat, now: nat)
    requires DistinctKeys(s) && Ordered(s) && at <= now
    ensures Get(Prune(s, at), key, now) == Get(s, key, now) <==>
            !(now == at && exists i :: 0 <= i < |s| && s[i].key == key && s[i].expires == at)
  {
    var d := PruneDropsPrefix(s, at);
    var rest := s[d..];
    assert forall i :: 0 <= i < |rest| ==> rest[i] == s[d + i];
    match Position(s, key)
    case None =>
      GetAbsent(s, key, now);
      GetAbsent(rest, key, now);
    case Some(p) =>
      GetAt(s, p, now);
      assert forall i :: 0 <= i < |s| && s[i].key == key ==> i == p;
      if d <= p {
        assert rest[p - d] == s[p];
        GetAt(rest, p - d, now);
      } else {
        GetAbsent(rest, key, now);
      }
  }

  datatype Op<K> = OpInsert(time: nat, key: K, data: KademliaData) | OpPrune(time: nat)

  ghost predicate ClockRuns<K(!new)>(run: seq<Op<K>>) {
    forall i, j :: 0 <= i <= j < |run| ==> run[i].time <= run[j].time
  }

  /** A run's result: the store; beside it, as a reference without bound or pruning, every key ever inserted, least
      recently inserted first, with its expiry; the time of the last prune; and the time of the last operation. */
  datatype History<K> = History(store: seq<Entry<K>>, recent: seq<(K, nat)>, pruned: int, now: nat)

  function Applied<K(==)>(h: History<K>, op: Op<K>): History<K> {
    match op
    case OpInsert(t, k, v) =>
      History(Insert(h.store, k, v, t), Without(h.recent, k) + [(k, t + DEFAULT_TTL)], h.pruned, t)
    case OpPrune(t) => History(Prune(h.store, t), h.recent, t, t)
  }

  function After<K(==)>(run: seq<Op<K>>): History<K> {
    if run == [] then History([], [], -1, 0) else Applied(After(Front(run)), Last(run))
  }

  function Without<K(==)>(r: seq<(K, nat)>, key: K): seq<(K, nat)> {
    if r == [] then [] else (if r[0].0 == key then [] else [r[0]]) + Without(r[1..], key)
  }

  ghost predicate DistinctFirst<K(!new)>(r: seq<(K, nat)>) {
    forall i, j :: 0 <= i < j < |r| ==> r[i].0 != r[j].0
  }

  lemma {:induction false} WithoutAt<K(!new)>(r: seq<(K, nat)>, key: K, p: nat)
    requires DistinctFirst(r)
    requires p < |r| && r[p].0 == key
    ensures Without(r, key) == r[..p] + r[p + 1..]
  {
    if p == 0 {
      WithoutAbsent(r[1..], key);
    } else {
      assert r[1..][p - 1] == r[p];
      WithoutAt(r[1..], key, p - 1);
      assert r[1..][..p - 1] == r[1..p] && r[1..][p..] == r[p + 1..] && r[..p] == [r[0]] + r[1..p];
    }
  }

  lemma {:induction false} WithoutAbsent<K(!new)>(r: seq<(K, nat)>, key: K)
    requires forall i :: 0 <= i < |r| ==> r[i].0 != key
    ensures Without(r, key) == r
  {
    if r != [] { WithoutAbsent(r[1..], key); }
  }

  /** `s` is the most recent end of the reference. */
  ghost predicate Suffix<K(!new)>(s: seq<Entry<K>>, r: seq<(K, nat)>) {
    && |s| <= |r| && |s| <= MAX_STORE_ENTRIES
    && forall j :: 0 <= j < |s| ==> (s[j].key, s[j].expires) == r[|r| - |s| + j]
  }

  ghost predicate RecentOk<K(!new)>(r: seq<(K, nat)>, now: nat) {
    && DistinctFirst(r)
    && (forall i, j :: 0 <= i <= j < |r| ==> r[i].1 <= r[j].1)
    && (forall i :: 0 <= i < |r| ==> r[i].1 <= now + DEFAULT_TTL)
  }

  /** Each of the `m` oldest keys has expired by the last prune or has at least 10,000 more recent ones after it. */
  ghost predicate Missing<K(!new)>(r: seq<(K, nat)>, m: int, pruned: int) {
    forall i :: 0 <= i < m && i < |r| ==> r[i].1 <= pruned || |r| - i > MAX_STORE_ENTRIES
  }

  ghost predicate IsRecentEnd<K(!new)>(s: seq<Entry<K>>, r: seq<(K, nat)>, pruned: int, now: nat) {
    Suffix(s, r) && RecentOk(r, now) && Missing(r, |r| - |s|, pruned)
  }

  lemma {:induction false} EmptyEnd<K(!new)>(s: seq<Entry<K>>, r: seq<(K, nat)>)
    requires s == [] && r == []
    ensures IsRecentEnd(s, r, -1, 0)
  {
  }

  /** The reference after an insertion: the key leaves its place `p`, if it had one, and goes to the end. */
  lemma {:induction false} RecentAfter<K(!new)>(r: seq<(K, nat)>, then_: nat, now: nat, key: K) returns (p: nat)
    requires RecentOk(r, then_) && then_ <= now
    ensures p <= |r| && (p < |r| ==> r[p].0 == key)
    ensures p == |r| ==> forall i :: 0 <= i < |r| ==> r[i].0 != key
    ensures Without(r, key) == r[..p] + r[Min(p + 1, |r|)..]
    ensures RecentOk(Without(r, key) + [(key, now + DEFAULT_TTL)], now)
  {
    if exists q :: 0 <= q < |r| && r[q].0 == key {
      p :| 0 <= p < |r| && r[p].0 == key;
      WithoutAt(r, key, p);
      MovedOk(r, p, then_, now);
    } else {
      p := |r|;
      WithoutAbsent(r, key);
      assert r[..p] + r[p..] == r;
    }
  }

  lemma {:induction false} MovedOk<K(!new)>(r: seq<(K, nat)>, p: nat, then_: nat, now: nat)
    requires RecentOk(r, then_) && then_ <= now && p < |r|
    ensures RecentOk(r[..p] + r[p + 1..] + [(r[p].0, now + DEFAULT_TTL)], now)
  {
    var r' := r[..p] + r[p + 1..] + [(r[p].0, now + DEFAULT_TTL)];
    forall i, j | 0 <= i < j < |r'| ensures r'[i].0 != r'[j].0 && r'[i].1 <= r'[j].1 {
      var i0, j0 := if i < p then i else i + 1, if j < p then j else j + 1;
      assert r'[i] == r[i0];
      if j < |r'| - 1 { assert r'[j] == r[j0]; }
    }
  }

  /** A key the store holds is moved to the end of both. */
  lemma {:induction false} SuffixMoved<K(!new)>(s: seq<Entry<K>>, r: seq<(K, nat)>, p: nat, e: Entry<K>, pruned: int)
    requires Suffix(s, r) && p < |s| && Missing(r, |r| - |s|, pruned)
    ensures var q := |r| - |s| + p;
            var s', r' := s[..p] + s[p + 1..] + [e], r[..q] + r[q + 1..] + [(e.key, e.expires)];
            Suffix(s', r') && Missing(r', |r'| - |s'|, pruned)
  {
  }

  /** A key the store has lost, or never had, is appended; a full store drops its oldest entry. */
  lemma {:induction false} SuffixAppended<K(!new)>(s: seq<Entry<K>>, r: seq<(K, nat)>, q: nat, e: Entry<K>, pruned: int)
    requires Suffix(s, r) && (q < |r| - |s| || q == |r|) && Missing(r, |r| - |s|, pruned)
    ensures var s' := (if |s| >= MAX_STORE_ENTRIES then s[1..] else s) + [e];
            var r' := r[..q] + r[Min(q + 1, |r|)..] + [(e.key, e.expires)];
            Suffix(s', r') && Missing(r', |r'| - |s'|, pruned)
  {
  }

  /** With the key taken from place `q` of the reference, if it had one, the store stays its recent end. */
  lemma {:induction false} InsertKeepsSuffix<K(!new)>(s: seq<Entry<K>>, r: seq<(K, nat)>, q: nat, pruned: int, now: nat,
                                                      key: K, data: KademliaData)
    requires Suffix(s, r) && DistinctFirst(r) && Missing(r, |r| - |s|, pruned)
    requires q <= |r| && (q < |r| ==> r[q].0 == key) && (q == |r| ==> forall i :: 0 <= i < |r| ==> r[i].0 != key)
    ensures var s' := Insert(s, key, data, now);
            var r' := r[..q] + r[Min(q + 1, |r|)..] + [(key, now + DEFAULT_TTL)];
            Suffix(s', r') && Missing(r', |r'| - |s'|, pruned)
  {
    match Position(s, key)
    case Some(p) =>
      SamePlace(s, r, key, p, q);
      SuffixMoved(s, r, p, Entry(key, Merge(s[p].data, data), now + DEFAULT_TTL), pruned);
    case None =>
      LostBefore(s, r, key, q);
      SuffixAppended(s, r, q, Entry(key, data, now + DEFAULT_TTL), pruned);
  }

  lemma {:induction false} InsertKeepsEnd<K(!new)>(s: seq<Entry<K>>, r: seq<(K, nat)>, pruned: int, then_: nat,
                                                   now: nat, key: K, data: KademliaData)
    requires IsRecentEnd(s, r, pruned, then_) && then_ <= now
    ensures IsRecentEnd(Insert(s, key, data, now), Without(r, key) + [(key, now + DEFAULT_TTL)], pruned, now)
  {
    var q := RecentAfter(r, then_, now, key);
    InsertKeepsSuffix(s, r, q, pruned, now, key, data);
  }

  lemma {:induction false} SamePlace<K(!new)>(s: seq<Entry<K>>, r: seq<(K, nat)>, key: K, p: nat, q: nat)
    requires Suffix(s, r) && DistinctFirst(r) && p < |s| && s[p].key == key
    requires q <= |r| && (q < |r| ==> r[q].0 == key) && (q == |r| ==> forall i :: 0 <= i < |r| ==> r[i].0 != key)
    ensures q == |r| - |s| + p
  {
    assert r[|r| - |s| + p].0 == key;
  }

  lemma {:induction false} LostBefore<K(!new)>(s: seq<Entry<K>>, r: seq<(K, nat)>, key: K, q: nat)
    requires Suffix(s, r) && (forall j :: 0 <= j < |s| ==> s[j].key != key)
    requires q <= |r| && (q < |r| ==> r[q].0 == key)
    ensures q < |r| - |s| || q == |r|
  {
    var m := |r| - |s|;
    forall i | m <= i < |r| ensures r[i].0 != key {
      assert (s[i - m].key, s[i - m].expires) == r[m + (i - m)];
    }
  }

  lemma {:induction false} PruneKeepsEnd<K(!new)>(s: seq<Entry<K>>, r: seq<(K, nat)>, pruned: int, then_: nat, now: nat)
    requires IsRecentEnd(s, r, pruned, then_) && then_ <= now && pruned <= now
    ensures IsRecentEnd(Prune(s, now), r, now, now)
  {
    EndIsOrdered(s, r, pruned, then_);
    var d := PruneDropsPrefix(s, now);
    var m := |r| - |s|;
    forall i | 0 <= i < m + d ensures r[i].1 <= now || |r| - i > MAX_STORE_ENTRIES {
      if i >= m {
        assert (s[i - m].key, s[i - m].expires) == r[m + (i - m)];
      }
    }
  }

  lemma {:induction false} EndIsOrdered<K(!new)>(s: seq<Entry<K>>, r: seq<(K, nat)>, pruned: int, now: nat)
    requires IsRecentEnd(s, r, pruned, now)
    ensures Ordered(s) && DistinctKeys(s)
  {
    var m := |r| - |s|;
    forall i, j | 0 <= i < j < |s| ensures s[i].expires <= s[j].expires && s[i].key != s[j].key {
      assert r[m + i].1 <= r[m + j].1 && r[m + i].0 != r[m + j].0;
    }
  }

  ghost predicate HistoryOk<K(!new)>(h: History<K>) {
    IsRecentEnd(h.store, h.recent, h.pruned, h.now) && h.pruned <= h.now
  }

  lemma {:induction false} AppliedKeeps<K(!new)>(h: History<K>, op: Op<K>)
    requires HistoryOk(h) && h.now <= op.time
    ensures HistoryOk(Applied(h, op))
  {
    match op
    case OpInsert(t, k, v) => InsertKeepsEnd(h.store, h.recent, h.pruned, h.now, t, k, v);
    case OpPrune(t) => PruneKeepsEnd(h.store, h.recent, h.pruned, h.now, t);
  }

  /** In every run under a nondecreasing clock the store is the recent end of everything ever inserted. */
  lemma {:induction false} StoreIsRecentEnd<K(!new)>(run: seq<Op<K>>)
    requires ClockRuns(run)
    ensures HistoryOk(After(run)) && After(run).now == if run == [] then 0 else Last(run).time
  {
    if run == [] {
      EmptyEnd(After(run).store, After(run).recent);
    } else {
      var before := Front(run);
      StoreIsRecentEnd(before);
      assert before != [] ==> Last(before).time <= Last(run).time;
      AppliedKeeps(After(before), Last(run));
    }
  }

  /** Every reachable store is bounded, has one entry per key, and is ordered by expiry, so the entry at the front, the
      one an insertion of a new key into a full store drops, is one with the earliest expiry. */
  lemma {:induction false} EvictsEarliest<K(!new)>(run: seq<Op<K>>, key: K, data: KademliaData, now: nat)
    requires ClockRuns(run)
    ensures var s, t := After(run).store, Insert(After(run).store, key, data, now);
            && |s| <= MAX_STORE_ENTRIES && DistinctKeys(s) && Ordered(s)
            && forall i, j :: 0 <= i < |s| && 0 <= j < |s| && s[i].key != key && s[i] !in t ==>
                 |s| == MAX_STORE_ENTRIES && key !in Keys(s) && s[i].expires <= s[j].expires
  {
    StoreIsRecentEnd(run);
    var h := After(run);
    EndIsOrdered(h.store, h.recent, h.pruned, h.now);
    InsertKeepsOthers(h.store, key, data, now);
  }

  lemma {:induction false} InsertKeepsOthers<K(!new)>(s: seq<Entry<K>>, key: K, data: KademliaData, now: nat)
    ensures forall i :: 0 <= i < |s| && s[i].key != key && (i > 0 || |s| < MAX_STORE_ENTRIES || key in Keys(s)) ==>
              s[i] in Insert(s, key, data, now)
  {
    var t := Insert(s, key, data, now);
    forall i | 0 <= i < |s| && s[i].key != key && (i > 0 || |s| < MAX_STORE_ENTRIES || key in Keys(s))
      ensures s[i] in t
    {
      match Position(s, key)
      case Some(p) => assert s[i] == if i < p then t[i] else t[i - 1];
      case None => assert s[i] == if |s| < MAX_STORE_ENTRIES then t[i] else t[i - 1];
    }
  }

  ghost function Keys<K(!new)>(s: seq<Entry<K>>): set<K> {
    set i | 0 <= i < |s| :: s[i].key
  }

  /** Retention: a key whose expiry lies after the last prune, with fewer than 10,000 distinct keys inserted since, is
      answered until it expires. */
  lemma {:induction false} RecentKeysAreServed<K(!new)>(run: seq<Op<K>>, i: nat, now: nat)
    requires ClockRuns(run) && i < |After(run).recent|
    requires |After(run).recent| - i <= MAX_STORE_ENTRIES && After(run).pruned < After(run).recent[i].1
    ensures Get(After(run).store, After(run).recent[i].0, now).Some? <==> now <= After(run).recent[i].1
  {
    StoreIsRecentEnd(run);
    var h := After(run);
    EndIsOrdered(h.store, h.recent, h.pruned, h.now);
    var j := i - (|h.recent| - |h.store|);
    assert (h.store[j].key, h.store[j].expires) == h.recent[|h.recent| - |h.store| + j];
    GetAt(h.store, j, now);
  }

  lemma {:induction false} InsertDistinct<K(!new)>(s: seq<Entry<K>>, key: K, data: KademliaData, now: nat)
    requires DistinctKeys(s)
    ensures DistinctKeys(Insert(s, key, data, now))
  {
  }

  /** The entry of a key. */
  function Find<K(==)>(s: seq<Entry<K>>, key: K): Option<Entry<K>> {
    match Position(s, key) case Some(p) => Some(s[p]) case None => None
  }

  lemma {:induction false} FindAt<K(!new)>(s: seq<Entry<K>>, p: nat)
    requires DistinctKeys(s) && p < |s|
    ensures Find(s, s[p].key) == Some(s[p])
  {
    PositionUnique(s, s[p].key, p);
  }

  lemma {:induction false} FindAbsent<K(!new)>(s: seq<Entry<K>>, key: K)
    requires forall i :: 0 <= i < |s| ==> s[i].key != key
    ensures Find(s, key) == None
  {
  }

  /** The part of an ordered store that a prune leaves: a suffix, the store itself if nothing has expired. */
  lemma {:induction false} FindPruned<K(!new)>(s: seq<Entry<K>>, at: nat, key: K)
    requires DistinctKeys(s) && Ordered(s)
    ensures var e := Find(s, key); Find(Prune(s, at), key) == if e.Some? && e.value.expires > at then e else None
  {
    var d := PruneDropsPrefix(s, at);
    var p := s[d..];
    match Position(s, key)
    case None =>
      FindAbsent(p, key);
    case Some(q) =>
      if d <= q {
        assert p[q - d] == s[q];
        FindAt(p, q - d);
      } else {
        forall i | 0 <= i < |p| ensures p[i].key != key { assert p[i] == s[d + i]; }
        FindAbsent(p, key);
      }
  }

  /** The answer for a key just inserted. */
  lemma {:induction false} GetInserted<K(!new)>(s: seq<Entry<K>>, key: K, data: KademliaData, now: nat, t: nat)
    requires DistinctKeys(s)
    ensures Get(Insert(s, key, data, now), key, t) ==
            if t > now + DEFAULT_TTL then None
            else match Find(s, key) case Some(e) => Some(Merge(e.data, data)) case None => Some(data)
  {
    var r := Insert(s, key, data, now);
    InsertDistinct(s, key, data, now);
    GetAt(r, |r| - 1, t);
  }

  /** Inserting `key` makes room by dropping the entry of `other`. */
  ghost predicate Evicts<K(!new)>(s: seq<Entry<K>>, key: K, other: K) {
    |s| >= MAX_STORE_ENTRIES && s[0].key == other && Find(s, key).None?
  }

  /** And the answer for any other key. */
  lemma {:induction false} GetOther<K(!new)>(s: seq<Entry<K>>, key: K, data: KademliaData, now: nat, other: K, t: nat)
    requires DistinctKeys(s) && other != key
    ensures Get(Insert(s, key, data, now), other, t) == if Evicts(s, key, other) then None else Get(s, other, t)
  {
    var r := Insert(s, key, data, now);
    InsertDistinct(s, key, data, now);
    match Position(s, other)
    case None =>
      GetAbsent(r, other, t);
    case Some(q) =>
      GetAt(s, q, t);
      if Evicts(s, key, other) {
        PositionUnique(s, other, 0);
        GetAbsent(r, other, t);
      } else {
        var q' := match Position(s, key)
          case Some(p) => if q < p then q else q - 1
          case None => if |s| >= MAX_STORE_ENTRIES then q - 1 else q;
        assert r[q'] == s[q];
        GetAt(r, q', t);
      }
  }

  /** The prune took a peer set of the key that the insertion would have added to. */
  predicate MergeLost<K(==)>(s: seq<Entry<K>>, key: K, data: KademliaData, at: nat) {
    var e := Find(s, key);
    && e.Some? && e.value.expires <= at
    && e.value.data.Peers? && data.Peers? && !(e.value.data.peers <= data.peers)
  }

  /** The prune took an entry that was still answered at `t`, and that the insertion would not have evicted. */
  ghost predicate AnswerLost<K(!new)>(s: seq<Entry<K>>, key: K, other: K, at: nat, t: nat) {
    var e := Find(s, other);
    e.Some? && t <= e.value.expires <= at && !Evicts(s, key, other)
  }

  /** A store that is still full after a prune has lost nothing. */
  lemma {:induction false} EvictsSame<K(!new)>(s: seq<Entry<K>>, at: nat, key: K, other: K)
    requires DistinctKeys(s) && Ordered(s) && |s| <= MAX_STORE_ENTRIES
    ensures Evicts(Prune(s, at), key, other) ==> Prune(s, at) == s
    ensures Evicts(s, key, other) && Prune(s, at) != s ==> Find(s, other).Some? && Find(s, other).value.expires <= at
  {
    var d := PruneDropsPrefix(s, at);
    if d == 0 { assert s[d..] == s; }
    if |s| > 0 { FindAt(s, 0); }
  }

  lemma {:induction false} PruneThenOther<K(!new)>(s: seq<Entry<K>>, key: K, other: K, at: nat, t: nat)
    requires DistinctKeys(s) && Ordered(s) && |s| <= MAX_STORE_ENTRIES
    ensures var p := Prune(s, at);
            var after := if Evicts(p, key, other) then None else Get(p, other, t);
            var before := if Evicts(s, key, other) then None else Get(s, other, t);
            after != before <==> AnswerLost(s, key, other, at, t)
  {
    FindPruned(s, at, other);
    EvictsSame(s, at, key, other);
    if Prune(s, at) == s { NothingTaken(s, at, other); }
  }

  lemma {:induction false} NothingTaken<K(!new)>(s: seq<Entry<K>>, at: nat, key: K)
    requires DistinctKeys(s) && Ordered(s) && Prune(s, at) == s
    ensures Find(s, key).Some? ==> Find(s, key).value.expires > at
  {
    FindPruned(s, at, key);
  }

  lemma {:induction false} PruneThenMerge<K(!new)>(s: seq<Entry<K>>, key: K, data: KademliaData, at: nat, now: nat,
                                                   t: nat)
    requires DistinctKeys(s) && Ordered(s)
    ensures Get(Insert(Prune(s, at), key, data, now), key, t) != Get(Insert(s, key, data, now), key, t) <==>
            t <= now + DEFAULT_TTL && MergeLost(s, key, data, at)
  {
    var d := PruneDropsPrefix(s, at);
    FindPruned(s, at, key);
    GetInserted(s, key, data, now, t);
    GetInserted(s[d..], key, data, now, t);
    if Find(s, key).Some? { MergeChanges(Find(s, key).value.data, data); }
  }

  /** Merging into old data gives just the new data unless it adds peers. */
  lemma {:induction false} MergeChanges(old_: KademliaData, new_: KademliaData)
    ensures Merge(old_, new_) != new_ <==> old_.Peers? && new_.Peers? && !(old_.peers <= new_.peers)
  {
    if old_.Peers? && new_.Peers? && old_.peers <= new_.peers { assert old_.peers + new_.peers == new_.peers; }
  }

  lemma {:induction false} AfterSnoc<K(!new)>(run: seq<Op<K>>, op: Op<K>)
    ensures After(run + [op]) == Applied(After(run), op)
  {
    assert Front(run + [op]) == run && Last(run + [op]) == op;
  }

  /** The stores of a run and of the same run with a prune before its last insertion. */
  lemma {:induction false} WithAndWithout<K(!new)>(run: seq<Op<K>>, at: nat, key: K, data: KademliaData, now: nat)
    ensures After(run + [OpInsert(now, key, data)]).store == Insert(After(run).store, key, data, now)
    ensures After(run + [OpPrune(at), OpInsert(now, key, data)]).store ==
            Insert(Prune(After(run).store, at), key, data, now)
  {
    var prune, insert := OpPrune(at), OpInsert(now, key, data);
    AfterSnoc(run, insert);
    AfterSnoc(run, prune);
    AfterSnoc(run + [prune], insert);
    assert run + [prune, insert] == run + [prune] + [insert];
  }

  lemma {:induction false} ReachableStore<K(!new)>(run: seq<Op<K>>)
    requires ClockRuns(run)
    ensures var s := After(run).store; DistinctKeys(s) && Ordered(s) && |s| <= MAX_STORE_ENTRIES
  {
    StoreIsRecentEnd(run);
    var h := After(run);
    EndIsOrdered(h.store, h.recent, h.pruned, h.now);
  }

  ghost predicate PruneShows<K(!new)>(s: seq<Entry<K>>, at: nat, key: K, data: KademliaData, now: nat, asked: K,
                                      t: nat) {
    if asked == key then t <= now + DEFAULT_TTL && MergeLost(s, key, data, at) else AnswerLost(s, key, asked, at, t)
  }

  lemma {:induction false} PruneShowsInStore<K(!new)>(s: seq<Entry<K>>, at: nat, key: K, data: KademliaData, now: nat,
                                                      asked: K, t: nat)
    requires DistinctKeys(s) && Ordered(s) && |s| <= MAX_STORE_ENTRIES
    ensures Get(Insert(Prune(s, at), key, data, now), asked, t) != Get(Insert(s, key, data, now), asked, t) <==>
            PruneShows(s, at, key, data, now, asked, t)
  {
    if asked == key {
      PruneThenMerge(s, key, data, at, now, t);
    } else {
      var d := PruneDropsPrefix(s, at);
      GetOther(s, key, data, now, asked, t);
      GetOther(s[d..], key, data, now, asked, t);
      PruneThenOther(s, key, asked, at, t);
    }
  }

  /** Whether a prune shows after a later insertion, exactly. For the key inserted it shows for the whole of its life if
      and only if the prune took a peer set that is not all in the new one. For any other key it shows only while the
      entry taken was still answered, so not after the prune; and making room never makes a difference, since what a
      full store would drop is what the prune takes first. */
  lemma {:induction false} PruneShowsIff<K(!new)>(run: seq<Op<K>>, at: nat, key: K, data: KademliaData, now: nat,
                                                  asked: K, t: nat)
    requires ClockRuns(run)
    ensures var pruned := After(run + [OpPrune(at), OpInsert(now, key, data)]).store;
            var kept := After(run + [OpInsert(now, key, data)]).store;
            Get(pruned, asked, t) != Get(kept, asked, t) <==> PruneShows(After(run).store, at, key, data, now, asked, t)
  {
    ReachableStore(run);
    WithAndWithout(run, at, key, data, now);
    PruneShowsInStore(After(run).store, at, key, data, now, asked, t);
  }

  /** The case occurs for every key and any two peer sets of which the older is not part of the newer. */
  lemma {:induction false} PruneShowsThroughMerge<K(!new)>(key: K, older: set<int>, newer: set<int>)
    requires !(older <= newer)
    ensures var now := DEFAULT_TTL + 1;
            var first, late := OpInsert(0, key, Peers(older)), OpInsert(now, key, Peers(newer));
            Get(After([first] + [OpPrune(now), late]).store, key, now) != Get(After([first] + [late]).store, key, now)
  {
    var now := DEFAULT_TTL + 1;
    var first := OpInsert(0, key, Peers(older));
    AfterSnoc([], first);
    assert [] + [first] == [first];
    assert After([first]).store == [Entry(key, Peers(older), DEFAULT_TTL)];
    PruneShowsIff([first], now, key, Peers(newer), now, key, now);
  }
}
