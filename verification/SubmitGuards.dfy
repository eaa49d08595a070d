/** The two TTL- and capacity-bounded deduplication guards: `DuplicateSubmitGuard`
    (share_handler.rs) for submitted shares and `BlockSubmitGuard` (kaspaapi.rs) for blocks.
    Clock readings are parameters; nothing assumes they are ordered unless it says so. */
module SubmitGuards {
  import opened Options

  /** Submission keys (`worker|job|nonce`) and block hashes are strings. */
  type Key = string

  datatype Entry<V> = Entry(ts: nat, value: V)

  /** Held keys with the time and value last recorded, and the eviction queue. */
  datatype Guard<V> = Guard(entries: map<Key, Entry<V>>, order: seq<Key>)

  datatype Limits = Limits(ttl: nat, maxEntries: nat)

  /** `now.duration_since(ts) > ttl`; the subtraction saturates at zero. */
  predicate Expired<V>(g: Guard<V>, k: Key, now: nat, lim: Limits) {
    k !in g.entries || now > g.entries[k].ts + lim.ttl
  }

  function Pop<V>(g: Guard<V>): Guard<V>
    requires g.order != []
  {
    Guard(g.entries - {g.order[0]}, g.order[1..])
  }

  function DropExpired<V>(g: Guard<V>, now: nat, lim: Limits): Guard<V>
    decreases |g.order|
  {
    if g.order != [] && Expired(g, g.order[0], now, lim) then DropExpired(Pop(g), now, lim) else g
  }

  function DropOver<V>(g: Guard<V>, lim: Limits): Guard<V>
    decreases |g.order|
  {
    if g.order != [] && |g.entries| > lim.maxEntries then DropOver(Pop(g), lim) else g
  }

  function Pruned<V>(g: Guard<V>, now: nat, lim: Limits): Guard<V> {
    DropOver(DropExpired(g, now, lim), lim)
  }

  // ---- The share guard -----------------------------------------------------------

  datatype Outcome = InFlight | Accepted | Stale | LowDiff | Bad

  /** The queue lists each held key once and nothing else. */
  ghost predicate Tight<V>(g: Guard<V>) {
    && (forall i, j :: 0 <= i < j < |g.order| ==> g.order[i] != g.order[j])
    && (forall k :: k in g.order <==> k in g.entries)
  }

  lemma {:induction false} TightSize<V>(g: Guard<V>)
    requires Tight(g)
    ensures |g.entries| == |g.order|
    decreases |g.order|
  {
    if g.order == [] {
      assert g.entries == map[];
    } else {
      PopKeepsTight(g);
      TightSize(Pop(g));
      assert g.entries.Keys == Pop(g).entries.Keys + {g.order[0]};
      assert |g.entries.Keys| == |g.entries| && |Pop(g).entries.Keys| == |Pop(g).entries|;
    }
  }

  lemma PopKeepsTight<V>(g: Guard<V>)
    requires Tight(g) && g.order != []
    ensures Tight(Pop(g))
  {
  }

  /** The guard with its first `n` keys forgotten. */
  ghost predicate IsTail<V>(g: Guard<V>, n: nat, r: Guard<V>) {
    && n <= |g.order| && r.order == g.order[n..] && Tight(r)
    && forall k :: k in r.entries ==> k in g.entries && r.entries[k] == g.entries[k]
  }

  /** `n` is the first queue position whose key has not expired. */
  ghost predicate FirstFresh<V>(g: Guard<V>, n: nat, now: nat, lim: Limits) {
    && n <= |g.order|
    && (forall j :: 0 <= j < n ==> Expired(g, g.order[j], now, lim))
    && (n < |g.order| ==> !Expired(g, g.order[n], now, lim))
  }

  lemma TailOfPop<V>(g: Guard<V>, m: nat, r: Guard<V>)
    requires Tight(g) && g.order != [] && IsTail(Pop(g), m, r)
    ensures IsTail(g, m + 1, r)
  {
  }

  lemma TailZero<V>(g: Guard<V>)
    requires Tight(g)
    ensures IsTail(g, 0, g)
  {
  }

  lemma FirstFreshOfPop<V>(g: Guard<V>, m: nat, now: nat, lim: Limits)
    requires Tight(g) && g.order != [] && Expired(g, g.order[0], now, lim)
    requires FirstFresh(Pop(g), m, now, lim)
    ensures FirstFresh(g, m + 1, now, lim)
  {
  }

  lemma {:induction false} DropExpiredIsTail<V>(g: Guard<V>, now: nat, lim: Limits) returns (n: nat)
    requires Tight(g)
    ensures IsTail(g, n, DropExpired(g, now, lim)) && FirstFresh(g, n, now, lim)
    decreases |g.order|
  {
    if g.order != [] && Expired(g, g.order[0], now, lim) {
      PopKeepsTight(g);
      var m := DropExpiredIsTail(Pop(g), now, lim);
      n := m + 1;
      TailOfPop(g, m, DropExpired(g, now, lim));
      FirstFreshOfPop(g, m, now, lim);
    } else {
      n := 0;
      TailZero(g);
    }
  }

  lemma DropOverByLength<V>(g: Guard<V>, lim: Limits)
    requires Tight(g)
    ensures DropOver(g, lim) == if |g.order| > lim.maxEntries then DropOver(Pop(g), lim) else g
  {
    TightSize(g);
  }

  lemma {:induction false} DropOverIsTail<V>(g: Guard<V>, lim: Limits, r: Guard<V>)
    requires Tight(g) && r == DropOver(g, lim)
    ensures IsTail(g, Excess(g, lim), r)
    decreases |g.order|
  {
    DropOverByLength(g, lim);
    if |g.order| > lim.maxEntries {
      PopKeepsTight(g);
      DropOverIsTail(Pop(g), lim, r);
      assert Excess(g, lim) == Excess(Pop(g), lim) + 1;
      TailOfPop(g, Excess(Pop(g), lim), r);
    } else {
      assert Excess(g, lim) == 0 && r == g;
      TailZero(g);
    }
  }

  function Excess<V>(g: Guard<V>, lim: Limits): nat {
    if |g.order| > lim.maxEntries then |g.order| - lim.maxEntries else 0
  }

  lemma TailOfTail<V>(g: Guard<V>, a: nat, mid: Guard<V>, b: nat, r: Guard<V>)
    requires IsTail(g, a, mid) && IsTail(mid, b, r)
    ensures IsTail(g, a + b, r)
  {
  }

  /** What pruning forgets, exactly: the first `n` keys of the queue, where `n` covers every
      leading expired key (up to the first live one at `live`) and whatever exceeds the capacity. */
  lemma PrunedIsTail<V>(g: Guard<V>, now: nat, lim: Limits) returns (live: nat, n: nat)
    requires Tight(g)
    ensures FirstFresh(g, live, now, lim)
    ensures n == if live + lim.maxEntries < |g.order| then |g.order| - lim.maxEntries else live
    ensures IsTail(g, n, Pruned(g, now, lim))
    ensures |Pruned(g, now, lim).order| <= lim.maxEntries
  {
    live := DropExpiredIsTail(g, now, lim);
    var mid := DropExpired(g, now, lim);
    n := live + Excess(mid, lim);
    OverIsTail(g, live, mid, lim, Pruned(g, now, lim));
    OverCount(g, live, mid, lim, Pruned(g, now, lim));
  }

  lemma OverIsTail<V>(g: Guard<V>, live: nat, mid: Guard<V>, lim: Limits, r: Guard<V>)
    requires IsTail(g, live, mid) && r == DropOver(mid, lim)
    ensures IsTail(g, live + Excess(mid, lim), r) && IsTail(mid, Excess(mid, lim), r)
  {
    DropOverIsTail(mid, lim, r);
    TailOfTail(g, live, mid, Excess(mid, lim), r);
  }

  lemma OverCount<V>(g: Guard<V>, live: nat, mid: Guard<V>, lim: Limits, r: Guard<V>)
    requires IsTail(g, live, mid) && IsTail(mid, Excess(mid, lim), r)
    ensures |r.order| <= lim.maxEntries
    ensures live + Excess(mid, lim) == if live + lim.maxEntries < |g.order| then |g.order| - lim.maxEntries else live
  {
  }

  function InsertInFlight(g: Guard<Outcome>, k: Key, now: nat, lim: Limits): Guard<Outcome> {
    var p := Pruned(g, now, lim);
    if k in p.entries then p else Guard(p.entries[k := Entry(now, InFlight)], p.order + [k])
  }

  function SetOutcome(g: Guard<Outcome>, k: Key, now: nat, o: Outcome, lim: Limits): Guard<Outcome> {
    var p := Pruned(g, now, lim);
    if k in p.entries then Guard(p.entries[k := Entry(now, o)], p.order) else p
  }

  /** The guard's promise about its own shape. */
  ghost predicate Bounded(g: Guard<Outcome>, lim: Limits) {
    Tight(g) && |g.entries| == |g.order| <= lim.maxEntries + 1
  }

  lemma PruneKeepsBounded(g: Guard<Outcome>, now: nat, lim: Limits)
    requires Bounded(g, lim)
    ensures Bounded(Pruned(g, now, lim), lim) && |Pruned(g, now, lim).order| <= lim.maxEntries
  {
    var live, n := PrunedIsTail(g, now, lim);
    TightSize(Pruned(g, now, lim));
  }

  lemma InsertKeepsBounded(g: Guard<Outcome>, k: Key, now: nat, lim: Limits)
    requires Bounded(g, lim)
    ensures Bounded(InsertInFlight(g, k, now, lim), lim)
  {
    PruneKeepsBounded(g, now, lim);
    TightSize(InsertInFlight(g, k, now, lim));
  }

  lemma SetKeepsBounded(g: Guard<Outcome>, k: Key, now: nat, o: Outcome, lim: Limits)
    requires Bounded(g, lim)
    ensures Bounded(SetOutcome(g, k, now, o, lim), lim)
  {
    PruneKeepsBounded(g, now, lim);
    TightSize(SetOutcome(g, k, now, o, lim));
  }

  class DuplicateSubmitGuard {
    const lim: Limits
    var entries: map<Key, Entry<Outcome>>
    var order: seq<Key>

    ghost function View(): Guard<Outcome>
      reads this
    {
      Guard(entries, order)
    }

    constructor (lim: Limits)
      ensures this.lim == lim && View() == Guard(map[], []) && Bounded(View(), lim)
    {
      this.lim, entries, order := lim, map[], [];
    }

    method Prune(now: nat)
      requires Bounded(View(), lim)
      modifies this
      ensures View() == Pruned(old(View()), now, lim) && Bounded(View(), lim)
    {
      PruneKeepsBounded(View(), now, lim);
      while order != [] && (order[0] !in entries || now > entries[order[0]].ts + lim.ttl)
        invariant DropExpired(View(), now, lim) == DropExpired(old(View()), now, lim)
        decreases |order|
      {
        entries, order := entries - {order[0]}, order[1..];
      }
      while |entries| > lim.maxEntries && order != []
        invariant DropOver(View(), lim) == Pruned(old(View()), now, lim)
        decreases |order|
      {
        entries, order := entries - {order[0]}, order[1..];
      }
    }

    method Get(k: Key, now: nat) returns (r: Option<Outcome>)
      requires Bounded(View(), lim)
      modifies this
      ensures View() == Pruned(old(View()), now, lim) && Bounded(View(), lim)
      ensures r == if k in View().entries then Some(View().entries[k].value) else None
    {
      Prune(now);
      r := if k in entries then Some(entries[k].value) else None;
    }

    method InsertInFlightKey(k: Key, now: nat)
      requires Bounded(View(), lim)
      modifies this
      ensures View() == InsertInFlight(old(View()), k, now, lim) && Bounded(View(), lim)
    {
      InsertKeepsBounded(View(), k, now, lim);
      Prune(now);
      if k in entries {
        return;
      }
      entries := entries[k := Entry(now, InFlight)];
      order := order + [k];
    }

    method RecordOutcome(k: Key, now: nat, o: Outcome)
      requires Bounded(View(), lim)
      modifies this
      ensures View() == SetOutcome(old(View()), k, now, o, lim) && Bounded(View(), lim)
    {
      SetKeepsBounded(View(), k, now, o, lim);
      Prune(now);
      if k in entries {
        entries := entries[k := Entry(now, o)];
      }
    }
  }

  // ---- Runs of the share guard -------------------------------------------------

  /** `Submit` is the lookup-or-claim that `handle_submit` performs under the guard's lock;
      `Record` stores how the submission ended. */
  datatype Op = Submit(k: Key, now: nat) | Record(k: Key, now: nat, o: Outcome)

  function Step(g: Guard<Outcome>, op: Op, lim: Limits): Guard<Outcome> {
    match op
    case Submit(k, now) =>
      var p := Pruned(g, now, lim);
      if k in p.entries then p else InsertInFlight(p, k, now, lim)
    case Record(k, now, o) => SetOutcome(g, k, now, o, lim)
  }

  /** The stored outcome a submission is answered with, or `None` when it is processed. */
  function Reply(g: Guard<Outcome>, op: Op, lim: Limits): Option<Outcome>
    requires op.Submit?
  {
    var p := Pruned(g, op.now, lim);
    if op.k in p.entries then Some(p.entries[op.k].value) else None
  }

  lemma StepKeepsBounded(g: Guard<Outcome>, op: Op, lim: Limits)
    requires Bounded(g, lim)
    ensures Bounded(Step(g, op, lim), lim)
  {
    PruneKeepsBounded(g, op.now, lim);
    if op.Submit? {
      InsertKeepsBounded(Pruned(g, op.now, lim), op.k, op.now, lim);
    } else {
      SetKeepsBounded(g, op.k, op.now, op.o, lim);
    }
  }

  ghost predicate IsRun(states: seq<Guard<Outcome>>, ops: seq<Op>, lim: Limits) {
    && |states| == |ops| + 1
    && states[0] == Guard(map[], [])
    && forall m :: 0 <= m < |ops| ==> Transition(states, ops, m, lim)
  }

  ghost predicate Transition(states: seq<Guard<Outcome>>, ops: seq<Op>, m: nat, lim: Limits)
    requires m < |ops| < |states|
  {
    states[m + 1] == Step(states[m], ops[m], lim)
  }

  lemma {:induction false} RunIsBounded(states: seq<Guard<Outcome>>, ops: seq<Op>, lim: Limits, m: nat)
    requires IsRun(states, ops, lim) && m < |states|
    ensures Bounded(states[m], lim)
  {
    if m > 0 {
      RunIsBounded(states, ops, lim, m - 1);
      BoundedNext(states, ops, lim, m - 1);
    }
  }

  lemma BoundedNext(states: seq<Guard<Outcome>>, ops: seq<Op>, lim: Limits, m: nat)
    requires IsRun(states, ops, lim) && m < |ops| && Bounded(states[m], lim)
    ensures Bounded(states[m + 1], lim)
  {
    StepKeepsBounded(states[m], ops[m], lim);
    assert Transition(states, ops, m, lim);
  }

  ghost predicate Processed(states: seq<Guard<Outcome>>, ops: seq<Op>, lim: Limits, m: nat)
    requires m < |ops| < |states|
  {
    ops[m].Submit? && Reply(states[m], ops[m], lim) == None
  }

  /** How many submissions were processed at positions `lo <= m < hi`. */
  ghost function ProcessedCount(states: seq<Guard<Outcome>>, ops: seq<Op>, lim: Limits, lo: nat, hi: nat): nat
    requires lo <= hi <= |ops| < |states|
    decreases hi
  {
    if lo == hi then 0
    else ProcessedCount(states, ops, lim, lo, hi - 1) + if Processed(states, ops, lim, hi - 1) then 1 else 0
  }

  /** The outcome last recorded for `k` at positions `lo <= m < hi`, `InFlight` if none was. */
  function LastOutcome(ops: seq<Op>, k: Key, lo: nat, hi: nat): Outcome
    requires lo <= hi <= |ops|
    decreases hi
  {
    if lo == hi then InFlight
    else if ops[hi - 1].Record? && ops[hi - 1].k == k then ops[hi - 1].o
    else LastOutcome(ops, k, lo, hi - 1)
  }

  /** `k` is held with outcome `o`, was stamped no earlier than `since`, and exactly `behind`
      keys stand behind it in the queue. */
  ghost predicate Standing(g: Guard<Outcome>, k: Key, behind: nat, since: nat, o: Outcome) {
    && behind < |g.order| && g.order[|g.order| - 1 - behind] == k
    && k in g.entries && g.entries[k].ts >= since && g.entries[k].value == o
  }

  lemma PruneKeepsStanding(g: Guard<Outcome>, k: Key, behind: nat, since: nat, o: Outcome, now: nat, lim: Limits)
    requires Tight(g) && Standing(g, k, behind, since, o)
    requires behind < lim.maxEntries && now <= since + lim.ttl
    ensures Standing(Pruned(g, now, lim), k, behind, since, o)
  {
    var live, n := PrunedIsTail(g, now, lim);
    NotAmongForgotten(g, k, behind, since, o, now, lim, live);
    TailKeepsStanding(g, n, Pruned(g, now, lim), k, behind, since, o);
  }

  lemma NotAmongForgotten(g: Guard<Outcome>, k: Key, behind: nat, since: nat, o: Outcome, now: nat, lim: Limits,
                          live: nat)
    requires Standing(g, k, behind, since, o) && FirstFresh(g, live, now, lim) && now <= since + lim.ttl
    ensures live <= |g.order| - 1 - behind
  {
  }

  lemma TailKeepsStanding(g: Guard<Outcome>, n: nat, r: Guard<Outcome>, k: Key, behind: nat, since: nat, o: Outcome)
    requires Standing(g, k, behind, since, o) && IsTail(g, n, r) && n <= |g.order| - 1 - behind
    ensures Standing(r, k, behind, since, o)
  {
  }

  lemma QueueingKeepsStanding(g: Guard<Outcome>, k: Key, behind: nat, since: nat, o: Outcome, added: Key, now: nat)
    requires Standing(g, k, behind, since, o) && added !in g.entries
    ensures Standing(Guard(g.entries[added := Entry(now, InFlight)], g.order + [added]), k, behind + 1, since, o)
  {
  }

  lemma RecordKeepsStanding(g: Guard<Outcome>, k: Key, behind: nat, since: nat, o: Outcome, op: Op, lim: Limits)
    requires Bounded(g, lim) && Standing(g, k, behind, since, o) && op.Record?
    requires behind < lim.maxEntries && since <= op.now <= since + lim.ttl
    ensures Standing(Step(g, op, lim), k, behind, since, if op.k == k then op.o else o)
  {
    PruneKeepsStanding(g, k, behind, since, o, op.now, lim);
  }

  lemma SubmitKeepsStanding(g: Guard<Outcome>, k: Key, behind: nat, since: nat, o: Outcome, op: Op, lim: Limits)
    requires Bounded(g, lim) && Standing(g, k, behind, since, o) && op.Submit?
    requires behind < lim.maxEntries && since <= op.now <= since + lim.ttl
    ensures Standing(Step(g, op, lim), k, if Reply(g, op, lim) == None then behind + 1 else behind, since, o)
    ensures op.k == k ==> Reply(g, op, lim) == Some(o)
  {
    PruneKeepsBounded(g, op.now, lim);
    PruneKeepsStanding(g, k, behind, since, o, op.now, lim);
    var p := Pruned(g, op.now, lim);
    if op.k !in p.entries {
      PruneKeepsStanding(p, k, behind, since, o, op.now, lim);
      StillForgotten(p, op.k, op.now, lim);
      QueueingKeepsStanding(Pruned(p, op.now, lim), k, behind, since, o, op.k, op.now);
    }
  }

  lemma StillForgotten(g: Guard<Outcome>, k: Key, now: nat, lim: Limits)
    requires Tight(g) && k !in g.entries
    ensures k !in Pruned(g, now, lim).entries
  {
    var live, n := PrunedIsTail(g, now, lim);
  }

  lemma StepKeepsStanding(g: Guard<Outcome>, op: Op, k: Key, behind: nat, since: nat, o: Outcome, lim: Limits)
    requires Bounded(g, lim) && Standing(g, k, behind, since, o)
    requires behind < lim.maxEntries && since <= op.now <= since + lim.ttl
    ensures Standing(Step(g, op, lim), k, BehindAfter(g, op, behind, lim), since, OutcomeAfter(op, k, o))
    ensures op.Submit? && op.k == k ==> Reply(g, op, lim) == Some(o)
  {
    match op
    case Submit(_, _) => SubmitKeepsStanding(g, k, behind, since, o, op, lim);
    case Record(_, _, _) => RecordKeepsStanding(g, k, behind, since, o, op, lim);
  }

  function BehindAfter(g: Guard<Outcome>, op: Op, behind: nat, lim: Limits): nat {
    if op.Submit? && Reply(g, op, lim) == None then behind + 1 else behind
  }

  function OutcomeAfter(op: Op, k: Key, o: Outcome): Outcome {
    if op.Record? && op.k == k then op.o else o
  }

  lemma JustProcessed(g: Guard<Outcome>, op: Op, lim: Limits)
    requires Bounded(g, lim) && op.Submit? && Reply(g, op, lim) == None
    ensures Standing(Step(g, op, lim), op.k, 0, op.now, InFlight)
  {
    PruneKeepsBounded(g, op.now, lim);
    StillForgotten(Pruned(g, op.now, lim), op.k, op.now, lim);
  }

  /** Readings after `i` and before `j` are at most the TTL later than the one at `i`. */
  predicate WithinTtl(ops: seq<Op>, lim: Limits, i: nat, j: nat)
    requires i < j <= |ops|
  {
    forall m :: i < m < j ==> ops[i].now <= ops[m].now <= ops[i].now + lim.ttl
  }

  /** From the moment a key is processed it stands in the queue with the outcome last recorded. */
  lemma {:induction false} StandsWithinWindow(states: seq<Guard<Outcome>>, ops: seq<Op>, lim: Limits, i: nat, j: nat)
    requires IsRun(states, ops, lim) && i < j <= |ops| && Processed(states, ops, lim, i)
    requires WithinTtl(ops, lim, i, j)
    requires ProcessedCount(states, ops, lim, i + 1, j) < lim.maxEntries
    ensures Standing(states[j], ops[i].k, ProcessedCount(states, ops, lim, i + 1, j), ops[i].now,
                     LastOutcome(ops, ops[i].k, i + 1, j))
    decreases j
  {
    if j == i + 1 {
      StandsAtFirst(states, ops, lim, i);
    } else {
      StandsWithinWindow(states, ops, lim, i, j - 1);
      StandsOneMore(states, ops, lim, i, j - 1);
    }
  }

  lemma StandsAtFirst(states: seq<Guard<Outcome>>, ops: seq<Op>, lim: Limits, i: nat)
    requires IsRun(states, ops, lim) && i < |ops|
    requires Processed(states, ops, lim, i)
    ensures Standing(states[i + 1], ops[i].k, ProcessedCount(states, ops, lim, i + 1, i + 1), ops[i].now,
                     LastOutcome(ops, ops[i].k, i + 1, i + 1))
  {
    RunIsBounded(states, ops, lim, i);
    assert Transition(states, ops, i, lim);
    JustProcessed(states[i], ops[i], lim);
  }

  lemma StandsOneMore(states: seq<Guard<Outcome>>, ops: seq<Op>, lim: Limits, i: nat, m: nat)
    requires IsRun(states, ops, lim) && i < m < |ops|
    requires ops[i].now <= ops[m].now <= ops[i].now + lim.ttl
    requires ProcessedCount(states, ops, lim, i + 1, m) < lim.maxEntries
    requires Standing(states[m], ops[i].k, ProcessedCount(states, ops, lim, i + 1, m), ops[i].now,
                      LastOutcome(ops, ops[i].k, i + 1, m))
    ensures Standing(states[m + 1], ops[i].k, ProcessedCount(states, ops, lim, i + 1, m + 1), ops[i].now,
                     LastOutcome(ops, ops[i].k, i + 1, m + 1))
  {
    RunIsBounded(states, ops, lim, m);
    assert Transition(states, ops, m, lim);
    var behind := ProcessedCount(states, ops, lim, i + 1, m);
    var o := LastOutcome(ops, ops[i].k, i + 1, m);
    StepKeepsStanding(states[m], ops[m], ops[i].k, behind, ops[i].now, o, lim);
    OneMoreStep(states, ops, lim, i, m);
  }

  lemma OneMoreStep(states: seq<Guard<Outcome>>, ops: seq<Op>, lim: Limits, i: nat, m: nat)
    requires i < m < |ops| < |states|
    ensures ProcessedCount(states, ops, lim, i + 1, m + 1)
         == BehindAfter(states[m], ops[m], ProcessedCount(states, ops, lim, i + 1, m), lim)
    ensures LastOutcome(ops, ops[i].k, i + 1, m + 1)
         == OutcomeAfter(ops[m], ops[i].k, LastOutcome(ops, ops[i].k, i + 1, m))
  {
  }

  /** Exactly-once within the window: once a key is processed, then for as long as clock
      readings stay within the TTL of it and fewer than `maxEntries` submissions have been
      processed since, a repetition is answered with the outcome last recorded for it (or
      "in flight") and is not processed again. */
  lemma DuplicateIsReplayed(states: seq<Guard<Outcome>>, ops: seq<Op>, lim: Limits, i: nat, j: nat)
    requires IsRun(states, ops, lim) && i < j < |ops| && Processed(states, ops, lim, i)
    requires ops[j].Submit? && ops[j].k == ops[i].k
    requires WithinTtl(ops, lim, i, j + 1)
    requires ProcessedCount(states, ops, lim, i + 1, j) < lim.maxEntries
    ensures Reply(states[j], ops[j], lim) == Some(LastOutcome(ops, ops[i].k, i + 1, j))
    ensures !Processed(states, ops, lim, j)
  {
    StandsWithinWindow(states, ops, lim, i, j);
    RunIsBounded(states, ops, lim, j);
    StepKeepsStanding(states[j], ops[j], ops[i].k, ProcessedCount(states, ops, lim, i + 1, j), ops[i].now,
                      LastOutcome(ops, ops[i].k, i + 1, j), lim);
  }

  /** `i` is the latest position before `m` at which `k` was processed. */
  ghost predicate LatestProcessing(states: seq<Guard<Outcome>>, ops: seq<Op>, lim: Limits, k: Key, i: nat, m: nat)
    requires m <= |ops| < |states|
  {
    && i < m && Processes(states, ops, lim, k, i)
    && forall n :: i < n < m ==> !Processes(states, ops, lim, k, n)
  }

  /** A key held after a step was processed by it, or held before with the outcome it then had,
      unless the step recorded another. */
  lemma HeldAfterStep(g: Guard<Outcome>, op: Op, k: Key, lim: Limits)
    requires Tight(g) && k in Step(g, op, lim).entries
    ensures if op.Submit? && op.k == k && Reply(g, op, lim) == None then Step(g, op, lim).entries[k].value == InFlight
            else k in g.entries && Step(g, op, lim).entries[k].value == OutcomeAfter(op, k, g.entries[k].value)
  {
    var live, n := PrunedIsTail(g, op.now, lim);
    var p := Pruned(g, op.now, lim);
    if op.Submit? && op.k !in p.entries {
      var live', n' := PrunedIsTail(p, op.now, lim);
    }
  }

  /** A held key carries the outcome last recorded since it was last processed. */
  lemma {:induction false} HeldSince(states: seq<Guard<Outcome>>, ops: seq<Op>, lim: Limits, k: Key, m: nat)
    returns (i: nat)
    requires IsRun(states, ops, lim) && m <= |ops| && k in states[m].entries
    ensures LatestProcessing(states, ops, lim, k, i, m)
    ensures states[m].entries[k].value == LastOutcome(ops, k, i + 1, m)
    decreases m
  {
    assert m > 0;
    HeldAfterMove(states, ops, lim, k, m - 1);
    if Processes(states, ops, lim, k, m - 1) {
      i := m - 1;
      LatestNow(states, ops, lim, k, m - 1);
    } else {
      i := HeldSince(states, ops, lim, k, m - 1);
      LatestStill(states, ops, lim, k, i, m - 1);
      LastOutcomeOn(ops, k, i + 1, m - 1);
    }
  }

  ghost predicate Processes(states: seq<Guard<Outcome>>, ops: seq<Op>, lim: Limits, k: Key, m: nat)
    requires m < |ops| < |states|
  {
    ops[m].k == k && Processed(states, ops, lim, m)
  }

  lemma HeldAfterMove(states: seq<Guard<Outcome>>, ops: seq<Op>, lim: Limits, k: Key, m: nat)
    requires IsRun(states, ops, lim) && m < |ops| && k in states[m + 1].entries
    ensures if Processes(states, ops, lim, k, m) then states[m + 1].entries[k].value == InFlight
            else k in states[m].entries
                 && states[m + 1].entries[k].value == OutcomeAfter(ops[m], k, states[m].entries[k].value)
  {
    RunIsBounded(states, ops, lim, m);
    assert Transition(states, ops, m, lim);
    HeldAfterStep(states[m], ops[m], k, lim);
  }

  lemma LatestNow(states: seq<Guard<Outcome>>, ops: seq<Op>, lim: Limits, k: Key, m: nat)
    requires m < |ops| < |states| && Processes(states, ops, lim, k, m)
    ensures LatestProcessing(states, ops, lim, k, m, m + 1) && LastOutcome(ops, k, m + 1, m + 1) == InFlight
  {
  }

  lemma LatestStill(states: seq<Guard<Outcome>>, ops: seq<Op>, lim: Limits, k: Key, i: nat, m: nat)
    requires m < |ops| < |states| && LatestProcessing(states, ops, lim, k, i, m) && !Processes(states, ops, lim, k, m)
    ensures LatestProcessing(states, ops, lim, k, i, m + 1)
  {
  }

  lemma LastOutcomeOn(ops: seq<Op>, k: Key, lo: nat, m: nat)
    requires lo <= m < |ops|
    ensures LastOutcome(ops, k, lo, m + 1) == OutcomeAfter(ops[m], k, LastOutcome(ops, k, lo, m))
  {
  }

  /** A held key always replays its last outcome: over every run, whatever the clock readings, a
      submission that is not processed is answered with the outcome last recorded since its key was
      last processed ("in flight" when none was). */
  lemma HeldKeyReplaysItsLastOutcome(states: seq<Guard<Outcome>>, ops: seq<Op>, lim: Limits, j: nat)
    requires IsRun(states, ops, lim) && j < |ops| && ops[j].Submit? && !Processed(states, ops, lim, j)
    ensures exists i: nat :: LatestProcessing(states, ops, lim, ops[j].k, i, j)
                     && Reply(states[j], ops[j], lim) == Some(LastOutcome(ops, ops[j].k, i + 1, j))
  {
    RunIsBounded(states, ops, lim, j);
    var live, n := PrunedIsTail(states[j], ops[j].now, lim);
    var i := HeldSince(states, ops, lim, ops[j].k, j);
  }

  // ---- The block guard -----------------------------------------------------------

  /** Every held hash is queued; after a removal the queue may also hold stale copies. */
  ghost predicate Queued(g: Guard<()>) {
    forall k :: k in g.entries ==> k in g.order
  }

  function Mark(g: Guard<()>, h: Key, now: nat, lim: Limits): Guard<()> {
    var p := Pruned(g, now, lim);
    if h in p.entries then p else Guard(p.entries[h := Entry(now, ())], p.order + [h])
  }

  function Remove(g: Guard<()>, h: Key, now: nat, lim: Limits): Guard<()> {
    var p := Pruned(g, now, lim);
    Guard(p.entries - {h}, p.order)
  }

  lemma {:induction false} DropExpiredKeepsQueued(g: Guard<()>, now: nat, lim: Limits)
    requires Queued(g)
    ensures Queued(DropExpired(g, now, lim))
    ensures forall k :: k in g.entries && k !in DropExpired(g, now, lim).entries ==> Expired(g, k, now, lim)
    ensures forall k :: k in DropExpired(g, now, lim).entries ==>
              k in g.entries && DropExpired(g, now, lim).entries[k] == g.entries[k]
    decreases |g.order|
  {
    if g.order != [] && Expired(g, g.order[0], now, lim) {
      assert g.order == [g.order[0]] + g.order[1..];
      DropExpiredKeepsQueued(Pop(g), now, lim);
    }
  }

  lemma {:induction false} DropOverKeepsQueued(g: Guard<()>, lim: Limits)
    requires Queued(g)
    ensures Queued(DropOver(g, lim)) && |DropOver(g, lim).entries| <= lim.maxEntries
    ensures forall k :: k in g.entries && k !in DropOver(g, lim).entries ==> |g.entries| > lim.maxEntries
    ensures forall k :: k in DropOver(g, lim).entries ==> k in g.entries && DropOver(g, lim).entries[k] == g.entries[k]
    decreases |g.order|
  {
    if g.order == [] {
      assert g.entries == map[];
    } else if |g.entries| > lim.maxEntries {
      assert g.order == [g.order[0]] + g.order[1..];
      DropOverKeepsQueued(Pop(g), lim);
    }
  }

  /** A held hash is forgotten by pruning only once it has expired, or while the guard is over
      capacity; after pruning the guard is within capacity. */
  lemma PruneForgetsOnly(g: Guard<()>, now: nat, lim: Limits, h: Key)
    requires Queued(g)
    ensures Queued(Pruned(g, now, lim)) && |Pruned(g, now, lim).entries| <= lim.maxEntries
    ensures h in g.entries && h !in Pruned(g, now, lim).entries ==>
              Expired(g, h, now, lim) || |DropExpired(g, now, lim).entries| > lim.maxEntries
    ensures h in Pruned(g, now, lim).entries ==> h in g.entries
  {
    DropExpiredKeepsQueued(g, now, lim);
    DropOverKeepsQueued(DropExpired(g, now, lim), lim);
  }

  class BlockSubmitGuard {
    const lim: Limits
    var entries: map<Key, Entry<()>>
    var order: seq<Key>

    ghost function View(): Guard<()>
      reads this
    {
      Guard(entries, order)
    }

    constructor (lim: Limits)
      ensures this.lim == lim && View() == Guard(map[], []) && Queued(View())
    {
      this.lim, entries, order := lim, map[], [];
    }

    method Prune(now: nat)
      requires Queued(View())
      modifies this
      ensures View() == Pruned(old(View()), now, lim) && Queued(View())
    {
      PruneForgetsOnly(View(), now, lim, "");
      while order != [] && (order[0] !in entries || now > entries[order[0]].ts + lim.ttl)
        invariant DropExpired(View(), now, lim) == DropExpired(old(View()), now, lim)
        decreases |order|
      {
        entries, order := entries - {order[0]}, order[1..];
      }
      while |entries| > lim.maxEntries && order != []
        invariant DropOver(View(), lim) == Pruned(old(View()), now, lim)
        decreases |order|
      {
        entries, order := entries - {order[0]}, order[1..];
      }
    }

    method TryMark(h: Key, now: nat) returns (won: bool)
      requires Queued(View())
      modifies this
      ensures View() == Mark(old(View()), h, now, lim) && Queued(View())
      ensures won <==> h !in Pruned(old(View()), now, lim).entries
    {
      Prune(now);
      if h in entries {
        return false;
      }
      entries := entries[h := Entry(now, ())];
      order := order + [h];
      return true;
    }

    method RemoveHash(h: Key, now: nat)
      requires Queued(View())
      modifies this
      ensures View() == Remove(old(View()), h, now, lim) && Queued(View())
    {
      Prune(now);
      entries := entries - {h};
    }
  }

  datatype BlockOp = TryMark(h: Key, now: nat) | RemoveOp(h: Key, now: nat)

  function BlockStep(g: Guard<()>, op: BlockOp, lim: Limits): Guard<()> {
    if op.TryMark? then Mark(g, op.h, op.now, lim) else Remove(g, op.h, op.now, lim)
  }

  ghost predicate IsBlockRun(states: seq<Guard<()>>, ops: seq<BlockOp>, lim: Limits) {
    && |states| == |ops| + 1
    && states[0] == Guard(map[], [])
    && forall m :: 0 <= m < |ops| ==> BlockTransition(states, ops, m, lim)
  }

  ghost predicate BlockTransition(states: seq<Guard<()>>, ops: seq<BlockOp>, m: nat, lim: Limits)
    requires m < |ops| < |states|
  {
    states[m + 1] == BlockStep(states[m], ops[m], lim)
  }

  lemma BlockStepKeepsQueued(g: Guard<()>, op: BlockOp, lim: Limits)
    requires Queued(g)
    ensures Queued(BlockStep(g, op, lim))
  {
    PruneForgetsOnly(g, op.now, lim, op.h);
    var p := Pruned(g, op.now, lim);
    assert forall k :: k in p.order ==> k in p.order + [op.h];
  }

  lemma {:induction false} BlockRunIsQueued(states: seq<Guard<()>>, ops: seq<BlockOp>, lim: Limits, m: nat)
    requires IsBlockRun(states, ops, lim) && m < |states|
    ensures Queued(states[m])
  {
    if m > 0 {
      BlockRunIsQueued(states, ops, lim, m - 1);
      QueuedNext(states, ops, lim, m - 1);
    }
  }

  lemma QueuedNext(states: seq<Guard<()>>, ops: seq<BlockOp>, lim: Limits, m: nat)
    requires IsBlockRun(states, ops, lim) && m < |ops| && Queued(states[m])
    ensures Queued(states[m + 1])
  {
    BlockStepKeepsQueued(states[m], ops[m], lim);
    assert BlockTransition(states, ops, m, lim);
  }

  ghost predicate Marked(states: seq<Guard<()>>, ops: seq<BlockOp>, lim: Limits, m: nat)
    requires m < |ops| < |states|
  {
    ops[m].TryMark? && ops[m].h !in Pruned(states[m], ops[m].now, lim).entries
  }

  /** The operation ends the hold on `h`: it removes `h`, or its prune forgets `h` because `h` has
      expired or because the guard is over capacity. */
  ghost predicate Releases(g: Guard<()>, op: BlockOp, h: Key, lim: Limits) {
    && h in g.entries
    && (|| (op.RemoveOp? && op.h == h)
        || (h !in Pruned(g, op.now, lim).entries && Expired(g, h, op.now, lim))
        || (h !in Pruned(g, op.now, lim).entries && |DropExpired(g, op.now, lim).entries| > lim.maxEntries))
  }

  /** A held hash is still held after the operation's prune, and after the operation unless it is
      removed, exactly when the operation does not release it. */
  lemma StepKeepsHold(g: Guard<()>, op: BlockOp, h: Key, lim: Limits)
    requires Queued(g) && h in g.entries
    ensures !Releases(g, op, h, lim) <==> h in Pruned(g, op.now, lim).entries && !(op.RemoveOp? && op.h == h)
    ensures !Releases(g, op, h, lim) ==> h in BlockStep(g, op, lim).entries
  {
    PruneForgetsOnly(g, op.now, lim, h);
  }

  lemma HeldAfterMark(states: seq<Guard<()>>, ops: seq<BlockOp>, lim: Limits, i: nat)
    requires IsBlockRun(states, ops, lim) && i < |ops| && Marked(states, ops, lim, i)
    ensures ops[i].h in states[i + 1].entries
  {
    assert BlockTransition(states, ops, i, lim);
    assert ops[i].h in Mark(states[i], ops[i].h, ops[i].now, lim).entries;
  }

  lemma HeldOneStepOn(states: seq<Guard<()>>, ops: seq<BlockOp>, lim: Limits, m: nat, h: Key)
    requires IsBlockRun(states, ops, lim) && m < |ops| && h in states[m].entries
    ensures h in states[m + 1].entries || Releases(states[m], ops[m], h, lim)
  {
    BlockRunIsQueued(states, ops, lim, m);
    assert BlockTransition(states, ops, m, lim);
    StepKeepsHold(states[m], ops[m], h, lim);
  }

  /** After a marking either the hash is still held or some operation in between released it. */
  lemma {:induction false} HeldOrReleased(states: seq<Guard<()>>, ops: seq<BlockOp>, lim: Limits, i: nat, j: nat)
    returns (m: nat)
    requires IsBlockRun(states, ops, lim) && i < j <= |ops| && Marked(states, ops, lim, i)
    ensures ops[i].h in states[j].entries || (i < m < j && Releases(states[m], ops[m], ops[i].h, lim))
    decreases j
  {
    if j == i + 1 {
      m := i;
      HeldAfterMark(states, ops, lim, i);
    } else {
      m := HeldOrReleased(states, ops, lim, i, j - 1);
      if ops[i].h in states[j - 1].entries {
        m := j - 1;
        HeldOneStepOn(states, ops, lim, j - 1, ops[i].h);
      }
    }
  }

  /** A block hash is marked twice only if in between (or in the second marking's own prune) the hold
      on it ended: it was removed, or forgotten after expiring or over capacity. */
  lemma SecondMarkNeedsRelease(states: seq<Guard<()>>, ops: seq<BlockOp>, lim: Limits, i: nat, j: nat)
    requires IsBlockRun(states, ops, lim) && i < j < |ops|
    requires Marked(states, ops, lim, i) && Marked(states, ops, lim, j) && ops[i].h == ops[j].h
    ensures exists m :: i < m <= j && Releases(states[m], ops[m], ops[i].h, lim)
  {
    var m := HeldOrReleased(states, ops, lim, i, j);
    if ops[i].h in states[j].entries {
      BlockRunIsQueued(states, ops, lim, j);
      StepKeepsHold(states[j], ops[j], ops[i].h, lim);
      assert Releases(states[j], ops[j], ops[i].h, lim);
    }
  }

  /** Removal keeps the queue free of stale copies exactly when there was nothing to remove. */
  lemma RemovalLeavesStaleCopy(g: Guard<()>, h: Key, now: nat, lim: Limits)
    requires Tight(g)
    ensures Tight(Remove(g, h, now, lim)) <==> h !in Pruned(g, now, lim).entries
  {
    var live, n := PrunedIsTail(g, now, lim);
    Forgetting(Pruned(g, now, lim), h);
  }

  lemma Forgetting(p: Guard<()>, h: Key)
    requires Tight(p)
    ensures Tight(Guard(p.entries - {h}, p.order)) <==> h !in p.entries
  {
  }
}
