/** In which order the block guard forgets marks, and what a removal does to that order
    (kaspaapi.rs, `BlockSubmitGuard`). */
module MarkOrder {
  import opened SubmitGuards

  // ---- Runs without stale copies -----------------------------------------------------

  lemma MarkKeepsTight(g: Guard<()>, h: Key, now: nat, lim: Limits)
    requires Tight(g)
    ensures Tight(Mark(g, h, now, lim))
  {
    var live, n := PrunedIsTail(g, now, lim);
    Appending(Pruned(g, now, lim), h, Entry(now, ()));
  }

  lemma Appending(p: Guard<()>, h: Key, e: Entry<()>)
    requires Tight(p)
    ensures h !in p.entries ==> Tight(Guard(p.entries[h := e], p.order + [h]))
  {
  }

  /** Operation `m` removes a hash that is still held after its own prune. */
  predicate RemovesHeld(states: seq<Guard<()>>, ops: seq<BlockOp>, lim: Limits, m: nat)
    requires m < |ops| < |states|
  {
    ops[m].RemoveOp? && ops[m].h in Pruned(states[m], ops[m].now, lim).entries
  }

  ghost predicate TightThroughout(states: seq<Guard<()>>, n: nat)
    requires n <= |states|
  {
    forall m :: 0 <= m < n ==> Tight(states[m])
  }

  lemma NextIsTightIff(states: seq<Guard<()>>, ops: seq<BlockOp>, lim: Limits, m: nat)
    requires IsBlockRun(states, ops, lim) && m < |ops| && Tight(states[m])
    ensures Tight(states[m + 1]) <==> !RemovesHeld(states, ops, lim, m)
  {
    assert BlockTransition(states, ops, m, lim);
    if ops[m].TryMark? {
      MarkKeepsTight(states[m], ops[m].h, ops[m].now, lim);
    } else {
      RemovalLeavesStaleCopy(states[m], ops[m].h, ops[m].now, lim);
    }
  }

  /** Over every run: the queue lists each held hash once and nothing else, in every state, exactly
      when no removal ever hits a hash that is still held. */
  lemma TightThroughoutIff(states: seq<Guard<()>>, ops: seq<BlockOp>, lim: Limits)
    requires IsBlockRun(states, ops, lim)
    ensures TightThroughout(states, |states|) <==> forall m :: 0 <= m < |ops| ==> !RemovesHeld(states, ops, lim, m)
  {
    if TightThroughout(states, |states|) {
      forall m | 0 <= m < |ops| ensures !RemovesHeld(states, ops, lim, m) {
        NextIsTightIff(states, ops, lim, m);
      }
    }
    if forall m :: 0 <= m < |ops| ==> !RemovesHeld(states, ops, lim, m) {
      StaysTight(states, ops, lim, |ops|);
    }
  }

  lemma {:induction false} StaysTight(states: seq<Guard<()>>, ops: seq<BlockOp>, lim: Limits, n: nat)
    requires IsBlockRun(states, ops, lim) && n <= |ops|
    requires forall m :: 0 <= m < |ops| ==> !RemovesHeld(states, ops, lim, m)
    ensures TightThroughout(states, n + 1)
  {
    if n > 0 {
      StaysTight(states, ops, lim, n - 1);
      NextIsTightIff(states, ops, lim, n - 1);
    }
  }

  /** Without stale copies marks are forgotten oldest first: what was marked before a forgotten hash
      is forgotten too. */
  lemma ForgetsOldestFirst(g: Guard<()>, now: nat, lim: Limits, i: nat, j: nat)
    requires Tight(g) && i < j < |g.order| && g.order[j] !in Pruned(g, now, lim).entries
    ensures g.order[i] !in Pruned(g, now, lim).entries
  {
    var live, n := PrunedIsTail(g, now, lim);
    PrefixForgotten(g, n, Pruned(g, now, lim), i, j);
  }

  lemma PrefixForgotten(g: Guard<()>, n: nat, p: Guard<()>, i: nat, j: nat)
    requires Tight(g) && IsTail(g, n, p) && i < j < |g.order| && g.order[j] !in p.entries
    ensures g.order[i] !in p.entries
  {
    assert forall m :: n <= m < |g.order| ==> g.order[m] == p.order[m - n];
    forall k | 0 <= k < |p.order| ensures p.order[k] != g.order[i] {
      assert p.order[k] == g.order[n + k];
    }
  }

  /** The hashes of the winning markings among the first `n` operations, in order. */
  ghost function MarksWon(states: seq<Guard<()>>, ops: seq<BlockOp>, lim: Limits, n: nat): seq<Key>
    requires n <= |ops| < |states|
    decreases n
  {
    if n == 0 then []
    else MarksWon(states, ops, lim, n - 1) + if Marked(states, ops, lim, n - 1) then [ops[n - 1].h] else []
  }

  ghost predicate IsSuffix(s: seq<Key>, whole: seq<Key>) {
    |s| <= |whole| && s == whole[|whole| - |s|..]
  }

  lemma SuffixOfSuffix(a: seq<Key>, b: seq<Key>, c: seq<Key>)
    requires IsSuffix(a, b) && IsSuffix(b, c)
    ensures IsSuffix(a, c)
  {
  }

  lemma SuffixSnoc(a: seq<Key>, b: seq<Key>, x: Key)
    requires IsSuffix(a, b)
    ensures IsSuffix(a + [x], b + [x])
  {
  }

  lemma {:induction false} DropExpiredIsSuffix(g: Guard<()>, now: nat, lim: Limits)
    ensures IsSuffix(DropExpired(g, now, lim).order, g.order)
    decreases |g.order|
  {
    if g.order != [] && Expired(g, g.order[0], now, lim) {
      DropExpiredIsSuffix(Pop(g), now, lim);
      SuffixOfSuffix(DropExpired(g, now, lim).order, Pop(g).order, g.order);
    }
  }

  lemma {:induction false} DropOverIsSuffix(g: Guard<()>, lim: Limits)
    ensures IsSuffix(DropOver(g, lim).order, g.order)
    decreases |g.order|
  {
    if g.order != [] && |g.entries| > lim.maxEntries {
      DropOverIsSuffix(Pop(g), lim);
      SuffixOfSuffix(DropOver(g, lim).order, Pop(g).order, g.order);
    }
  }

  lemma PrunedIsSuffix(g: Guard<()>, now: nat, lim: Limits)
    ensures IsSuffix(Pruned(g, now, lim).order, g.order)
  {
    DropExpiredIsSuffix(g, now, lim);
    DropOverIsSuffix(DropExpired(g, now, lim), lim);
    SuffixOfSuffix(Pruned(g, now, lim).order, DropExpired(g, now, lim).order, g.order);
  }

  lemma NextQueue(states: seq<Guard<()>>, ops: seq<BlockOp>, lim: Limits, m: nat)
    requires IsBlockRun(states, ops, lim) && m < |ops|
    ensures states[m + 1].order
         == Pruned(states[m], ops[m].now, lim).order + if Marked(states, ops, lim, m) then [ops[m].h] else []
  {
    assert BlockTransition(states, ops, m, lim);
  }

  /** Over every run the queue is the tail of the list of winning markings: it stands in the order in
      which the hashes were marked. */
  lemma {:induction false} QueueIsOrderOfMarks(states: seq<Guard<()>>, ops: seq<BlockOp>, lim: Limits, n: nat)
    requires IsBlockRun(states, ops, lim) && n <= |ops|
    ensures IsSuffix(states[n].order, MarksWon(states, ops, lim, n))
    decreases n
  {
    if n > 0 {
      QueueIsOrderOfMarks(states, ops, lim, n - 1);
      NextQueue(states, ops, lim, n - 1);
      var p := Pruned(states[n - 1], ops[n - 1].now, lim).order;
      PrunedIsSuffix(states[n - 1], ops[n - 1].now, lim);
      SuffixOfSuffix(p, states[n - 1].order, MarksWon(states, ops, lim, n - 1));
      SuffixSnoc(p, MarksWon(states, ops, lim, n - 1), ops[n - 1].h);
    }
  }

  // ---- Marked again within the window ---------------------------------------------------------

  lemma PruneKeepsEntries(g: Guard<()>, now: nat, lim: Limits)
    requires Queued(g)
    ensures |Pruned(g, now, lim).entries| <= |DropExpired(g, now, lim).entries| <= |g.entries|
    ensures forall k :: k in Pruned(g, now, lim).entries ==>
              k in g.entries && Pruned(g, now, lim).entries[k] == g.entries[k]
  {
    DropExpiredKeepsQueued(g, now, lim);
    DropOverKeepsQueued(DropExpired(g, now, lim), lim);
    FewerKeys(DropExpired(g, now, lim).entries, g.entries);
    FewerKeys(Pruned(g, now, lim).entries, DropExpired(g, now, lim).entries);
  }

  lemma FewerKeys<K, V>(a: map<K, V>, b: map<K, V>)
    requires a.Keys <= b.Keys
    ensures |a| <= |b|
  {
    assert b.Keys == a.Keys + (b.Keys - a.Keys);
    assert |a.Keys| == |a| && |b.Keys| == |b|;
  }

  /** Within the TTL of its mark and up to capacity a prune keeps a held hash. */
  lemma PruneKeepsFresh(g: Guard<()>, h: Key, now: nat, lim: Limits)
    requires Queued(g) && h in g.entries && now <= g.entries[h].ts + lim.ttl && |g.entries| <= lim.maxEntries
    ensures h in Pruned(g, now, lim).entries && Pruned(g, now, lim).entries[h] == g.entries[h]
  {
    PruneForgetsOnly(g, now, lim, h);
    PruneKeepsEntries(g, now, lim);
  }

  /** Between operations `i` and `n` the hash marked at `i` is not removed, no reading is past its TTL
      and the guard is within capacity. */
  ghost predicate Undisturbed(states: seq<Guard<()>>, ops: seq<BlockOp>, lim: Limits, i: nat, n: nat)
    requires i < n <= |ops| < |states|
  {
    forall m :: i < m < n ==> QuietAt(states, ops, lim, i, m)
  }

  ghost predicate QuietAt(states: seq<Guard<()>>, ops: seq<BlockOp>, lim: Limits, i: nat, m: nat)
    requires i < m < |ops| < |states|
  {
    && !(ops[m].RemoveOp? && ops[m].h == ops[i].h)
    && ops[m].now <= ops[i].now + lim.ttl && |states[m].entries| <= lim.maxEntries
  }

  lemma KeepsStamp(states: seq<Guard<()>>, ops: seq<BlockOp>, lim: Limits, h: Key, m: nat)
    requires IsBlockRun(states, ops, lim) && m < |ops| && h in Pruned(states[m], ops[m].now, lim).entries
    requires !(ops[m].RemoveOp? && ops[m].h == h)
    ensures h in states[m + 1].entries
    ensures states[m + 1].entries[h] == Pruned(states[m], ops[m].now, lim).entries[h]
  {
    assert BlockTransition(states, ops, m, lim);
  }

  lemma {:induction false} StaysMarked(states: seq<Guard<()>>, ops: seq<BlockOp>, lim: Limits, i: nat, n: nat)
    requires IsBlockRun(states, ops, lim) && i < n <= |ops| && Marked(states, ops, lim, i)
    requires Undisturbed(states, ops, lim, i, n)
    ensures ops[i].h in states[n].entries && states[n].entries[ops[i].h].ts == ops[i].now
    decreases n
  {
    if n == i + 1 {
      MarkStamps(states, ops, lim, i);
    } else {
      StaysMarked(states, ops, lim, i, n - 1);
      StaysOneMore(states, ops, lim, i, n - 1);
    }
  }

  lemma MarkStamps(states: seq<Guard<()>>, ops: seq<BlockOp>, lim: Limits, i: nat)
    requires IsBlockRun(states, ops, lim) && i < |ops| && Marked(states, ops, lim, i)
    ensures ops[i].h in states[i + 1].entries && states[i + 1].entries[ops[i].h].ts == ops[i].now
  {
    assert BlockTransition(states, ops, i, lim);
  }

  lemma StaysOneMore(states: seq<Guard<()>>, ops: seq<BlockOp>, lim: Limits, i: nat, m: nat)
    requires IsBlockRun(states, ops, lim) && i < m < |ops| && QuietAt(states, ops, lim, i, m)
    requires ops[i].h in states[m].entries && states[m].entries[ops[i].h].ts == ops[i].now
    ensures ops[i].h in states[m + 1].entries && states[m + 1].entries[ops[i].h].ts == ops[i].now
  {
    BlockRunIsQueued(states, ops, lim, m);
    PruneKeepsFresh(states[m], ops[i].h, ops[m].now, lim);
    KeepsStamp(states, ops, lim, ops[i].h, m);
  }

  /** While the readings stay within the TTL of a mark and the guard within its capacity, the hash is
      marked again only after it was removed. */
  lemma SecondMarkWithinWindow(states: seq<Guard<()>>, ops: seq<BlockOp>, lim: Limits, i: nat, j: nat) returns (m: nat)
    requires IsBlockRun(states, ops, lim) && i < j < |ops| && ops[i].h == ops[j].h
    requires Marked(states, ops, lim, i) && Marked(states, ops, lim, j)
    requires forall n :: i < n <= j ==> ops[n].now <= ops[i].now + lim.ttl
    requires forall n :: i < n <= j ==> |states[n].entries| <= lim.maxEntries
    ensures i < m < j && ops[m].RemoveOp? && ops[m].h == ops[i].h
  {
    if Undisturbed(states, ops, lim, i, j) {
      StaysMarked(states, ops, lim, i, j);
      BlockRunIsQueued(states, ops, lim, j);
      PruneKeepsFresh(states[j], ops[i].h, ops[j].now, lim);
    }
    m :| i < m < j && !QuietAt(states, ops, lim, i, m);
  }

  // ---- What a stale copy costs -----------------------------------------------------------

  /** For every TTL and capacity: a guard one over capacity whose front is a fresh hash queued again
      further back forgets that hash and nothing else. */
  lemma StaleFrontIsEvicted(g: Guard<()>, now: nat, lim: Limits)
    requires g.order != [] && !Expired(g, g.order[0], now, lim) && g.order[0] in g.order[1..]
    requires |g.entries| == lim.maxEntries + 1
    ensures Pruned(g, now, lim) == Pop(g)
    ensures g.order[0] !in Pruned(g, now, lim).entries && g.order[0] in Pruned(g, now, lim).order
    ensures forall k :: k in g.entries && k != g.order[0] ==> k in Pruned(g, now, lim).entries
  {
    OneOver(g, now, lim, Pop(g));
  }

  lemma OneOver(g: Guard<()>, now: nat, lim: Limits, r: Guard<()>)
    requires g.order != [] && !Expired(g, g.order[0], now, lim) && |g.entries| == lim.maxEntries + 1 && r == Pop(g)
    ensures Pruned(g, now, lim) == r && |r.entries| == lim.maxEntries
  {
    assert r.entries.Keys == g.entries.Keys - {g.order[0]};
    assert |r.entries| == |r.entries.Keys| && |g.entries| == |g.entries.Keys|;
    assert DropExpired(g, now, lim) == g && DropOver(r, lim) == r;
  }

  lemma NothingToPrune(g: Guard<()>, now: nat, lim: Limits)
    requires g.order != [] && !Expired(g, g.order[0], now, lim) && |g.entries| <= lim.maxEntries
    ensures Pruned(g, now, lim) == g
  {
  }

  // ---- The situation arises for every capacity from two on ---------------------------------

  /** The state after a run from the empty guard. */
  function BlockAfter(ops: seq<BlockOp>, lim: Limits): Guard<()>
    decreases |ops|
  {
    if ops == [] then Guard(map[], []) else BlockStep(BlockAfter(ops[..|ops| - 1], lim), ops[|ops| - 1], lim)
  }

  /** Every sequence of operations has a run, and it ends there. */
  lemma {:induction false} RunOf(ops: seq<BlockOp>, lim: Limits) returns (states: seq<Guard<()>>)
    ensures IsBlockRun(states, ops, lim) && states[|ops|] == BlockAfter(ops, lim)
    decreases |ops|
  {
    if ops == [] {
      states := [Guard(map[], [])];
    } else {
      var n := |ops| - 1;
      var front := RunOf(ops[..n], lim);
      states := front + [BlockAfter(ops, lim)];
      RunOn(front, ops[..n], ops[n], BlockAfter(ops, lim), lim);
      assert ops == ops[..n] + [ops[n]];
    }
  }

  lemma RunOn(front: seq<Guard<()>>, ops: seq<BlockOp>, op: BlockOp, g: Guard<()>, lim: Limits)
    requires IsBlockRun(front, ops, lim) && g == BlockStep(front[|ops|], op, lim)
    ensures IsBlockRun(front + [g], ops + [op], lim)
  {
    forall m | 0 <= m < |ops| + 1 ensures BlockTransition(front + [g], ops + [op], m, lim) {
      if m < |ops| {
        assert BlockTransition(front, ops, m, lim);
        assert (front + [g])[m] == front[m] && (front + [g])[m + 1] == front[m + 1] && (ops + [op])[m] == ops[m];
      }
    }
  }

  /** Different numbers name different hashes. */
  ghost predicate Distinct(name: nat -> Key) {
    forall i: nat, j: nat :: name(i) == name(j) ==> i == j
  }

  ghost function Names(name: nat -> Key, lo: nat, hi: nat): set<Key>
    requires lo <= hi
    decreases hi
  {
    if lo == hi then {} else Names(name, lo, hi - 1) + {name(hi - 1)}
  }

  lemma {:induction false} NamesAre(name: nat -> Key, lo: nat, hi: nat)
    requires lo <= hi && Distinct(name)
    ensures |Names(name, lo, hi)| == hi - lo && forall i: nat :: name(i) in Names(name, lo, hi) <==> lo <= i < hi
    decreases hi
  {
    if lo < hi { NamesAre(name, lo, hi - 1); }
  }

  lemma {:induction false} NamesFirst(name: nat -> Key, lo: nat, hi: nat)
    requires lo < hi
    ensures Names(name, lo, hi) == Names(name, lo + 1, hi) + {name(lo)}
    decreases hi
  {
    if lo + 1 < hi {
      NamesFirst(name, lo, hi - 1);
      EitherOrder(Names(name, lo + 1, hi - 1), name(lo), name(hi - 1));
    }
  }

  lemma EitherOrder<T>(s: set<T>, x: T, y: T)
    ensures s + {x} + {y} == s + {y} + {x}
  {
  }

  /** The hashes `lo <= i < hi`, all marked at time zero. */
  ghost function Held(name: nat -> Key, lo: nat, hi: nat): (m: map<Key, Entry<()>>)
    requires lo <= hi && Distinct(name)
    ensures m.Keys == Names(name, lo, hi) && forall k :: k in m ==> m[k] == Entry(0, ())
    ensures forall i: nat :: name(i) in m <==> lo <= i < hi
  {
    NamesAre(name, lo, hi);
    map k | k in Names(name, lo, hi) :: Entry(0, ())
  }

  lemma HeldSize(name: nat -> Key, lo: nat, hi: nat)
    requires lo <= hi && Distinct(name)
    ensures |Held(name, lo, hi)| == hi - lo
  {
    var m := Held(name, lo, hi);
    NamesAre(name, lo, hi);
    assert |m| == |m.Keys|;
  }

  lemma HoldOneMore(name: nat -> Key, lo: nat, hi: nat)
    requires lo <= hi && Distinct(name)
    ensures Held(name, lo, hi)[name(hi) := Entry(0, ())] == Held(name, lo, hi + 1) && name(hi) !in Held(name, lo, hi)
    ensures lo <= hi && Held(name, lo, hi + 1) - {name(lo)} == Held(name, lo + 1, hi + 1)
  {
    NamesFirst(name, lo, hi + 1);
    NamesAre(name, lo + 1, hi + 1);
    NamesAre(name, lo, hi);
  }

  ghost function Queue(name: nat -> Key, lo: nat, hi: nat): seq<Key>
    requires lo <= hi
    decreases hi
  {
    if lo == hi then [] else Queue(name, lo, hi - 1) + [name(hi - 1)]
  }

  /** The queue once 1 has been marked, removed and marked again, and 3, 4, ... since. */
  ghost function WithStaleCopy(name: nat -> Key, m: nat): seq<Key>
    requires m >= 3
  {
    [name(0), name(1), name(2), name(1)] + Queue(name, 3, m)
  }

  /** One more marking of a run that ends in `g`, which is within capacity and has a fresh front. */
  lemma OneMark(ops: seq<BlockOp>, g: Guard<()>, h: Key, lim: Limits, r: Guard<()>) returns (more: seq<BlockOp>)
    requires BlockAfter(ops, lim) == g && g.order != [] && !Expired(g, g.order[0], 0, lim)
    requires |g.entries| <= lim.maxEntries && h !in g.entries
    requires r == Guard(g.entries[h := Entry(0, ())], g.order + [h])
    ensures BlockAfter(more, lim) == r
  {
    NothingToPrune(g, 0, lim);
    more := ops + [TryMark(h, 0)];
    assert more[..|ops|] == ops;
  }

  lemma MarkTwo(name: nat -> Key, lim: Limits) returns (ops: seq<BlockOp>)
    requires lim.maxEntries >= 2 && Distinct(name)
    ensures BlockAfter(ops, lim) == Guard(Held(name, 0, 2), [name(0), name(1)])
  {
    HoldOneMore(name, 0, 0);
    HoldOneMore(name, 0, 1);
    HeldSize(name, 0, 1);
    var g := Guard(Held(name, 0, 1), [name(0)]);
    var first := MarkOne(name, lim);
    ops := OneMark(first, g, name(1), lim, Guard(Held(name, 0, 2), [name(0), name(1)]));
  }

  lemma MarkOne(name: nat -> Key, lim: Limits) returns (ops: seq<BlockOp>)
    requires Distinct(name)
    ensures BlockAfter(ops, lim) == Guard(Held(name, 0, 1), [name(0)])
  {
    HoldOneMore(name, 0, 0);
    assert Held(name, 0, 0) == map[];
    ops := [TryMark(name(0), 0)];
    assert ops[..0] == [];
  }

  lemma RemoveOne(name: nat -> Key, lim: Limits) returns (ops: seq<BlockOp>)
    requires lim.maxEntries >= 2 && Distinct(name)
    ensures BlockAfter(ops, lim) == Guard(Held(name, 0, 1), [name(0), name(1)])
  {
    var before := MarkTwo(name, lim);
    var g := Guard(Held(name, 0, 2), [name(0), name(1)]);
    HeldSize(name, 0, 2);
    NothingToPrune(g, 0, lim);
    HoldOneMore(name, 0, 1);
    assert Held(name, 0, 2) - {name(1)} == Held(name, 0, 1);
    ops := before + [RemoveOp(name(1), 0)];
    assert ops[..|before|] == before;
  }

  lemma MarkTheOther(name: nat -> Key, lim: Limits, g: Guard<()>) returns (ops: seq<BlockOp>)
    requires lim.maxEntries >= 2 && Distinct(name)
    requires g == Guard(Held(name, 0, 1)[name(2) := Entry(0, ())], [name(0), name(1), name(2)])
    ensures BlockAfter(ops, lim) == g && |g.entries| == 2
  {
    var before := RemoveOne(name, lim);
    HeldSize(name, 0, 1);
    ops := OneMark(before, Guard(Held(name, 0, 1), [name(0), name(1)]), name(2), lim, g);
  }

  lemma MarkAgain(name: nat -> Key, lim: Limits) returns (ops: seq<BlockOp>)
    requires lim.maxEntries >= 2 && Distinct(name)
    ensures BlockAfter(ops, lim) == Guard(Held(name, 0, 3), WithStaleCopy(name, 3))
  {
    var g := Guard(Held(name, 0, 1)[name(2) := Entry(0, ())], [name(0), name(1), name(2)]);
    var before := MarkTheOther(name, lim, g);
    HoldOneMore(name, 0, 1);
    HoldOneMore(name, 0, 2);
    assert g.entries[name(1) := Entry(0, ())] == Held(name, 0, 3);
    assert g.order + [name(1)] == WithStaleCopy(name, 3);
    ops := OneMark(before, g, name(1), lim, Guard(Held(name, 0, 3), WithStaleCopy(name, 3)));
  }

  /** Further hashes are marked until the guard is one over capacity. */
  lemma {:induction false} FillUp(name: nat -> Key, lim: Limits, m: nat) returns (ops: seq<BlockOp>)
    requires 3 <= m <= lim.maxEntries + 1 && Distinct(name)
    ensures BlockAfter(ops, lim) == Guard(Held(name, 0, m), WithStaleCopy(name, m))
  {
    if m == 3 {
      ops := MarkAgain(name, lim);
    } else {
      var before := FillUp(name, lim, m - 1);
      HeldSize(name, 0, m - 1);
      HoldOneMore(name, 0, m - 1);
      QueueMore(name, m - 1);
      ops := OneMark(before, Guard(Held(name, 0, m - 1), WithStaleCopy(name, m - 1)), name(m - 1), lim,
                     Guard(Held(name, 0, m), WithStaleCopy(name, m)));
    }
  }

  lemma QueueMore(name: nat -> Key, m: nat)
    requires m >= 3
    ensures WithStaleCopy(name, m + 1) == WithStaleCopy(name, m) + [name(m)]
    ensures WithStaleCopy(name, m)[0] == name(0) && WithStaleCopy(name, m)[1] == name(1)
            && WithStaleCopy(name, m)[3] == name(1)
  {
  }

  /** The run in which the guard is one over capacity and the stale copy of 1 stands in front. */
  lemma StaleCopyInFront(name: nat -> Key, lim: Limits) returns (ops: seq<BlockOp>)
    requires lim.maxEntries >= 2 && Distinct(name)
    ensures BlockAfter(ops, lim)
         == Guard(Held(name, 1, lim.maxEntries + 2), WithStaleCopy(name, lim.maxEntries + 2)[1..])
  {
    var n := lim.maxEntries;
    var before := FillUp(name, lim, n + 1);
    var r := Guard(Held(name, 1, n + 1), WithStaleCopy(name, n + 1)[1..]);
    FrontFallsOff(name, lim, r);
    HoldOneMore(name, 1, n + 1);
    ops := MarkOver(before, Guard(Held(name, 0, n + 1), WithStaleCopy(name, n + 1)), name(n + 1), lim, r);
    QueueMore(name, n + 1);
    assert WithStaleCopy(name, n + 2)[1..] == WithStaleCopy(name, n + 1)[1..] + [name(n + 1)];
  }

  lemma FrontFallsOff(name: nat -> Key, lim: Limits, r: Guard<()>)
    requires lim.maxEntries >= 2 && Distinct(name)
    requires r == Guard(Held(name, 1, lim.maxEntries + 1), WithStaleCopy(name, lim.maxEntries + 1)[1..])
    ensures Pruned(Guard(Held(name, 0, lim.maxEntries + 1), WithStaleCopy(name, lim.maxEntries + 1)), 0, lim) == r
  {
    var n := lim.maxEntries;
    HeldSize(name, 0, n + 1);
    QueueMore(name, n + 1);
    HoldOneMore(name, 0, n);
    OneOver(Guard(Held(name, 0, n + 1), WithStaleCopy(name, n + 1)), 0, lim, r);
  }

  lemma MarkOver(ops: seq<BlockOp>, g: Guard<()>, h: Key, lim: Limits, r: Guard<()>) returns (more: seq<BlockOp>)
    requires BlockAfter(ops, lim) == g && Pruned(g, 0, lim) == r && h !in r.entries
    ensures BlockAfter(more, lim) == Guard(r.entries[h := Entry(0, ())], r.order + [h])
  {
    more := ops + [TryMark(h, 0)];
    assert more[..|ops|] == ops;
  }

  lemma StaleFrontGoes(name: nat -> Key, lim: Limits, order: seq<Key>)
    requires Distinct(name) && lim.maxEntries >= 2 && |order| > 2 && order[0] == name(1) && order[2] == name(1)
    ensures var g := Guard(Held(name, 1, lim.maxEntries + 2), order);
      && name(1) in g.entries && name(2) in g.entries
      && name(1) !in Pruned(g, 0, lim).entries && name(2) in Pruned(g, 0, lim).entries
  {
    HeldSize(name, 1, lim.maxEntries + 2);
    assert order[1..][1] == order[2];
    StaleFrontIsEvicted(Guard(Held(name, 1, lim.maxEntries + 2), order), 0, lim);
  }

  /** What a stale copy costs, for every TTL, every capacity from two on and any hashes: some run
      reaches a state whose next prune evicts hash 1 although hash 2, marked before it, stays. */
  lemma StaleCopyEvictsTheNewer(name: nat -> Key, lim: Limits) returns (states: seq<Guard<()>>, ops: seq<BlockOp>)
    requires lim.maxEntries >= 2 && Distinct(name)
    ensures IsBlockRun(states, ops, lim) && EvictsTheNewer(states[|ops|], lim, name(2), name(1))
  {
    ops := StaleCopyInFront(name, lim);
    states := RunOf(ops, lim);
    EvictsThere(name, lim, BlockAfter(ops, lim));
  }

  lemma EvictsThere(name: nat -> Key, lim: Limits, g: Guard<()>)
    requires lim.maxEntries >= 2 && Distinct(name)
    requires g == Guard(Held(name, 1, lim.maxEntries + 2), WithStaleCopy(name, lim.maxEntries + 2)[1..])
    ensures EvictsTheNewer(g, lim, name(2), name(1))
  {
    QueueMore(name, lim.maxEntries + 2);
    StaleFrontGoes(name, lim, g.order);
    SecondCopyBehind(name, lim.maxEntries + 2);
  }

  /** Both hashes are held, the last copy of `older` stands before the last copy of `newer`, and a prune
      forgets `newer` only. */
  ghost predicate EvictsTheNewer(g: Guard<()>, lim: Limits, older: Key, newer: Key) {
    && older in g.entries && newer in g.entries
    && newer !in Pruned(g, 0, lim).entries && older in Pruned(g, 0, lim).entries
    && exists i, j :: MarkedBefore(g.order, older, newer, i, j)
  }

  /** `older` was queued at `i`, and last, `newer` at `j` after it. */
  ghost predicate MarkedBefore(order: seq<Key>, older: Key, newer: Key, i: nat, j: nat) {
    && i < j < |order| && order[i] == older && order[j] == newer
    && forall n :: i < n < |order| ==> order[n] != older
  }

  lemma {:induction false} QueueAvoids(name: nat -> Key, m: nat, i: nat)
    requires Distinct(name) && m >= 3 && i < 3
    ensures name(i) !in Queue(name, 3, m)
    decreases m
  {
    if m > 3 { QueueAvoids(name, m - 1, i); }
  }

  lemma SecondCopyBehind(name: nat -> Key, m: nat)
    requires Distinct(name) && m >= 3
    ensures MarkedBefore(WithStaleCopy(name, m)[1..], name(2), name(1), 1, 2)
  {
    QueueAvoids(name, m, 2);
    var order := WithStaleCopy(name, m)[1..];
    assert order == [name(1), name(2), name(1)] + Queue(name, 3, m);
    forall n | 1 < n < |order| ensures order[n] != name(2) {
      if n > 2 { assert order[n] == Queue(name, 3, m)[n - 3]; }
    }
  }

  /** There are enough distinct hashes to name. */
  function Name(i: nat): (k: Key)
    ensures |k| == i
  {
    if i == 0 then "" else Name(i - 1) + "7"
  }

  lemma NamesExist()
    ensures Distinct(Name)
  {
    forall i: nat, j: nat | Name(i) == Name(j) ensures i == j {
      assert |Name(i)| == i && |Name(j)| == j;
    }
  }

  /** So the newer of two marks is evicted first in some run of every guard with room for two. */
  lemma SomeRunEvictsTheNewer(lim: Limits)
    requires lim.maxEntries >= 2
    ensures exists states, ops, older, newer ::
              IsBlockRun(states, ops, lim) && EvictsTheNewer(states[|ops|], lim, older, newer)
  {
    NamesExist();
    var states, ops := StaleCopyEvictsTheNewer(Name, lim);
  }
}
