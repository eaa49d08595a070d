/** The bounded store of ZKas blocks awaiting a solved parent (merged.rs, `MergedPending`). */
module Pending {
  import opened Options

  /** A 32-byte hash, by value. */
  type Hash = nat

  /** The store's value. `order` lists the held keys, oldest first. */
  datatype Store<B> = Store(blocks: map<Hash, B>, feeLane: set<Hash>, order: seq<Hash>, solved: set<Hash>, cap: nat) {
    ghost predicate Valid() {
      && 1 <= cap && |order| <= cap
      && NoRepeats(order)
      && (forall h :: h in order <==> h in blocks)
      && solved <= blocks.Keys && feeLane <= blocks.Keys
    }

    /** Insertion: a held key keeps its place and its claim, a new key goes last and
        pushes out the oldest one when the store is full. */
    function Insert(h: Hash, b: B, paidPool: bool): Store<B>
      requires order == [] ==> cap > 0
    {
      var kept := if h in blocks || |order| < cap then this else Evict();
      kept.(blocks := kept.blocks[h := b],
            order := if h in blocks then kept.order else kept.order + [h],
            feeLane := if paidPool then kept.feeLane + {h} else kept.feeLane - {h})
    }

    function Evict(): Store<B>
      requires order != []
    {
      var oldest := order[0];
      this.(blocks := blocks - {oldest}, feeLane := feeLane - {oldest}, solved := solved - {oldest},
        order := order[1..])
    }

    predicate Claimable(h: Hash) {
      h in blocks && h !in solved
    }

    function Claim(h: Hash): Store<B> {
      if h in blocks then this.(solved := solved + {h}) else this
    }
  }

  ghost predicate NoRepeats<T>(s: seq<T>) {
    forall i, j :: 0 <= i < j < |s| ==> s[i] != s[j]
  }

  function Empty<B>(cap: nat): Store<B> {
    Store(map[], {}, [], {}, if cap < 1 then 1 else cap)
  }

  lemma InsertKeepsValid<B>(s: Store<B>, h: Hash, b: B, paidPool: bool)
    requires s.Valid()
    ensures s.Insert(h, b, paidPool).Valid()
    ensures h in s.Insert(h, b, paidPool).blocks
  {
    if h in s.blocks {
      assert s.Insert(h, b, paidPool).order == s.order;
    } else if |s.order| < s.cap {
      AppendKeepsValid(s, h, b, paidPool);
    } else {
      EvictKeepsValid(s);
      AppendKeepsValid(s.Evict(), h, b, paidPool);
    }
  }

  lemma AppendKeepsValid<B>(s: Store<B>, h: Hash, b: B, paidPool: bool)
    requires s.Valid() && h !in s.blocks && |s.order| < s.cap
    ensures s.Insert(h, b, paidPool).Valid() && h in s.Insert(h, b, paidPool).blocks
  {
    var t := s.Insert(h, b, paidPool);
    assert t.order == s.order + [h];
  }

  lemma EvictKeepsValid<B>(s: Store<B>)
    requires s.Valid() && |s.order| == s.cap
    ensures s.Evict().Valid() && |s.Evict().order| < s.Evict().cap
  {
    assert s.order == [s.order[0]] + s.Evict().order;
  }

  /** Appending and then trimming is the same as trimming and then appending. */
  lemma TrimAfterAppend<B>(s: Store<B>, h: Hash, b: B)
    requires s.Valid() && h !in s.blocks && |s.order| == s.cap
    ensures s.(blocks := s.blocks[h := b], order := s.order + [h]).Evict()
         == s.Evict().(blocks := s.Evict().blocks[h := b], order := s.Evict().order + [h])
  {
  }

  /** `MergedPending`: the fields the bridge updates in place behind its mutex. */
  class MergedPending<B> {
    var blocks: map<Hash, B>
    var feeLane: set<Hash>
    var order: seq<Hash>
    var solved: set<Hash>
    const cap: nat

    ghost function View(): Store<B>
      reads this
    {
      Store(blocks, feeLane, order, solved, cap)
    }

    constructor (cap: nat)
      ensures View() == Empty(cap) && View().Valid()
    {
      this.blocks, this.feeLane, this.order, this.solved := map[], {}, [], {};
      this.cap := if cap < 1 then 1 else cap;
    }

    method TrimToCap()
      requires 1 <= cap && |order| <= cap + 1
      modifies this
      ensures View() == if old(|order|) > cap then old(View()).Evict() else old(View())
    {
      while |order| > cap
        invariant View() == old(View()) || (old(|order|) > cap && |order| == cap && View() == old(View()).Evict())
        decreases |order|
      {
        var oldest := order[0];
        order := order[1..];
        blocks := blocks - {oldest};
        solved := solved - {oldest};
        feeLane := feeLane - {oldest};
      }
    }

    method InsertWithPayee(h: Hash, b: B, paidPool: bool)
      requires View().Valid()
      modifies this
      ensures View() == old(View()).Insert(h, b, paidPool) && View().Valid()
    {
      ghost var start := View();
      InsertKeepsValid(start, h, b, paidPool);
      var isNew := h !in blocks;
      blocks := blocks[h := b];
      if isNew {
        order := order + [h];
        TrimToCap();
        if |start.order| == cap { TrimAfterAppend(start, h, b); }
      }
      if paidPool {
        feeLane := feeLane + {h};
      } else {
        feeLane := feeLane - {h};
      }
    }

    method Insert(h: Hash, b: B)
      requires View().Valid()
      modifies this
      ensures View() == old(View()).Insert(h, b, false) && View().Valid()
    {
      InsertWithPayee(h, b, false);
    }

    /** An unknown key is credited to the miner, never to the pool. */
    method PaidPool(h: Hash) returns (r: bool)
      requires View().Valid()
      ensures h !in View().order ==> !r
      ensures r <==> h in View().feeLane
    {
      r := h in feeLane;
    }

    method Get(h: Hash) returns (r: Option<B>)
      requires View().Valid()
      ensures r == if h in View().order then Some(View().blocks[h]) else None
    {
      r := if h in blocks then Some(blocks[h]) else None;
    }

    method ClaimSolution(h: Hash) returns (won: bool)
      requires View().Valid()
      modifies this`solved
      ensures won <==> old(View()).Claimable(h)
      ensures won <==> View() != old(View())
      ensures View() == old(View()).Claim(h) && View().Valid()
    {
      if h in blocks {
        won := h !in solved;
        solved := solved + {h};
      } else {
        won := false;
      }
    }

    /** Whether the next claim of `h` would win, that is, mark it. */
    method IsUnsolved(h: Hash) returns (r: bool)
      requires View().Valid()
      ensures r <==> View().Claim(h) != View()
    {
      r := h in blocks && h !in solved;
    }
  }

  // ---- Runs ---------------------------------------------------------------

  datatype Op<B> = Insert(h: Hash, block: B, paidPool: bool) | Claim(h: Hash)

  function Step<B>(s: Store<B>, op: Op<B>): Store<B>
    requires s.order == [] ==> s.cap > 0
  {
    match op
    case Insert(h, b, p) => s.Insert(h, b, p)
    case Claim(h) => s.Claim(h)
  }

  lemma StepKeepsValid<B>(s: Store<B>, op: Op<B>)
    requires s.Valid()
    ensures Step(s, op).Valid()
  {
  }

  /** `states` are the values of the store before, between and after the operations of a run
      that starts empty. */
  ghost predicate IsRun<B>(cap: nat, states: seq<Store<B>>, ops: seq<Op<B>>) {
    && |states| == |ops| + 1
    && states[0] == Empty(cap)
    && (forall k :: 0 <= k < |states| ==> states[k].Valid())
    && (forall k :: 0 <= k < |ops| ==> Transition(states, ops, k))
  }

  ghost predicate Transition<B>(states: seq<Store<B>>, ops: seq<Op<B>>, k: nat)
    requires k < |ops| < |states|
  {
    states[k].Valid() && states[k + 1] == Step(states[k], ops[k])
  }

  /** Every sequence of operations has a run, and it is valid throughout. */
  lemma {:induction false} RunExists<B>(cap: nat, ops: seq<Op<B>>) returns (states: seq<Store<B>>)
    ensures IsRun(cap, states, ops)
  {
    if ops == [] {
      states := [Empty(cap)];
    } else {
      var n := |ops| - 1;
      var front := RunExists(cap, ops[..n]);
      StepKeepsValid(front[n], ops[n]);
      states := front + [Step(front[n], ops[n])];
      forall k | 0 <= k < |ops| ensures Transition(states, ops, k) {
        if k < n { assert Transition(front, ops[..n], k); }
      }
    }
  }

  /** Operation `i` is a claim that answered `true`. */
  ghost predicate Won<B>(states: seq<Store<B>>, ops: seq<Op<B>>, i: nat)
    requires i < |ops| < |states|
  {
    ops[i].Claim? && states[i].Claimable(ops[i].h)
  }

  /** Operation `i` won `h`, and `h` was held in every state after it up to state `k`. */
  ghost predicate WonAndHeld<B>(states: seq<Store<B>>, ops: seq<Op<B>>, i: nat, k: nat, h: Hash)
    requires k <= |ops| < |states|
  {
    && i < k && ops[i].h == h && Won(states, ops, i)
    && forall m :: i < m <= k ==> h in states[m].blocks
  }

  /** Some claim won `h` and `h` has been held ever since. */
  ghost predicate ClaimStands<B>(states: seq<Store<B>>, ops: seq<Op<B>>, k: nat, h: Hash)
    requires k <= |ops| < |states|
  {
    exists i :: WonAndHeld(states, ops, i, k, h)
  }

  /** A key is marked solved exactly when some claim won it and it has been held ever since. */
  lemma {:induction false} SolvedMeansClaimed<B>(cap: nat, states: seq<Store<B>>, ops: seq<Op<B>>, k: nat, h: Hash)
    requires IsRun(cap, states, ops) && k <= |ops|
    ensures h in states[k].solved <==> ClaimStands(states, ops, k, h)
  {
    if k > 0 {
      SolvedMeansClaimed(cap, states, ops, k - 1, h);
      assert Transition(states, ops, k - 1);
      StepSolves(states[k - 1], ops[k - 1], h);
      HeldOneMore(states, ops, k, h);
    }
  }

  /** One step solves `h` only by a winning claim, and forgets it only with its key. */
  lemma StepSolves<B>(s: Store<B>, op: Op<B>, h: Hash)
    requires s.Valid()
    ensures h in Step(s, op).solved
       <==> h in Step(s, op).blocks && (h in s.solved || (op.Claim? && op.h == h && s.Claimable(h)))
  {
    StepKeepsValid(s, op);
  }

  lemma HeldOneMore<B>(states: seq<Store<B>>, ops: seq<Op<B>>, k: nat, h: Hash)
    requires 0 < k <= |ops| < |states|
    ensures ClaimStands(states, ops, k, h)
       <==> && h in states[k].blocks
            && (ClaimStands(states, ops, k - 1, h) || (ops[k - 1].h == h && Won(states, ops, k - 1)))
  {
    if i: nat :| WonAndHeld(states, ops, i, k, h) {
      assert h in states[k].blocks;
      if i < k - 1 {
        assert WonAndHeld(states, ops, i, k - 1, h);
        assert ClaimStands(states, ops, k - 1, h);
      }
    }
    if h in states[k].blocks {
      if ClaimStands(states, ops, k - 1, h) {
        var l := k - 1;
        var i: nat :| WonAndHeld(states, ops, i, l, h);
        assert WonAndHeld(states, ops, i, k, h);
      }
      if ops[k - 1].h == h && Won(states, ops, k - 1) {
        assert WonAndHeld(states, ops, k - 1, k, h);
      }
    }
  }

  /** Claim-once: over every run a claim wins exactly when its key is held and no earlier
      winner of that key has been followed by uninterrupted retention. */
  lemma ClaimWinsOncePerLifetime<B>(cap: nat, states: seq<Store<B>>, ops: seq<Op<B>>, j: nat)
    requires IsRun(cap, states, ops) && j < |ops| && ops[j].Claim?
    ensures Won(states, ops, j)
       <==> ops[j].h in states[j].blocks && !ClaimStands(states, ops, j, ops[j].h)
  {
    SolvedMeansClaimed(cap, states, ops, j, ops[j].h);
  }

  /** Two wins of one key are always separated by a state in which the key is not held. */
  lemma WinsAreSeparatedByEviction<B>(cap: nat, states: seq<Store<B>>, ops: seq<Op<B>>, i: nat, j: nat)
    requires IsRun(cap, states, ops)
    requires i < j < |ops| && Won(states, ops, i) && Won(states, ops, j) && ops[i].h == ops[j].h
    ensures exists m :: i < m < j && ops[i].h !in states[m].blocks
  {
    ClaimWinsOncePerLifetime(cap, states, ops, j);
    assert !WonAndHeld(states, ops, i, j, ops[i].h);
  }

  /** What the most recent of the first `k` operations to insert `h` recorded. */
  function LastInsert<B>(ops: seq<Op<B>>, k: nat, h: Hash): Option<(B, bool)>
    requires k <= |ops|
  {
    if k == 0 then None
    else if ops[k - 1].Insert? && ops[k - 1].h == h then Some((ops[k - 1].block, ops[k - 1].paidPool))
    else LastInsert(ops, k - 1, h)
  }

  /** Payee attribution follows the template: in every run a held key reports the block and the
      payee flag of its latest insert, and an unknown key is never credited to the pool. */
  lemma {:induction false} AttributionFollowsTemplate<B>(cap: nat, states: seq<Store<B>>, ops: seq<Op<B>>, k: nat,
                                                         h: Hash)
    requires IsRun(cap, states, ops) && k <= |ops|
    ensures h in states[k].blocks ==> LastInsert(ops, k, h) == Some((states[k].blocks[h], h in states[k].feeLane))
    ensures h !in states[k].blocks ==> h !in states[k].feeLane
  {
    if k > 0 {
      AttributionFollowsTemplate(cap, states, ops, k - 1, h);
      assert Transition(states, ops, k - 1);
      StepAttributes(states[k - 1], ops[k - 1], h);
    }
  }

  /** One step changes what `h` reports only by inserting it. */
  lemma StepAttributes<B>(s: Store<B>, op: Op<B>, h: Hash)
    requires s.Valid()
    ensures var t := Step(s, op);
      && (h !in t.blocks ==> h !in t.feeLane)
      && (h in t.blocks && op.Insert? && op.h == h ==> t.blocks[h] == op.block && (h in t.feeLane <==> op.paidPool))
      && (h in t.blocks && !(op.Insert? && op.h == h) ==>
            h in s.blocks && t.blocks[h] == s.blocks[h] && (h in t.feeLane <==> h in s.feeLane))
  {
    StepKeepsValid(s, op);
  }

  /** The keys admitted as new by the first `k` operations, in order. */
  ghost function Admitted<B>(states: seq<Store<B>>, ops: seq<Op<B>>, k: nat): seq<Hash>
    requires k <= |ops| < |states|
  {
    if k == 0 then []
    else if ops[k - 1].Insert? && ops[k - 1].h !in states[k - 1].blocks then
      Admitted(states, ops, k - 1) + [ops[k - 1].h]
    else Admitted(states, ops, k - 1)
  }

  function LastN<T>(s: seq<T>, n: nat): seq<T> {
    if |s| <= n then s else s[|s| - n..]
  }

  lemma LastNSnoc<T>(s: seq<T>, x: T, n: nat)
    requires n >= 1
    ensures LastN(s + [x], n) == if |LastN(s, n)| < n then LastN(s, n) + [x] else LastN(s, n)[1..] + [x]
  {
  }

  lemma StepOrder<B>(s: Store<B>, op: Op<B>)
    requires s.Valid()
    ensures Step(s, op).cap == s.cap
    ensures Step(s, op).order == if op.Claim? || op.h in s.blocks then s.order
                                 else (if |s.order| < s.cap then s.order else s.order[1..]) + [op.h]
  {
  }

  /** The store is a FIFO window: in every run it holds exactly the last `cap` admitted keys,
      in order. */
  lemma HoldsTheLastAdmitted<B>(cap: nat, states: seq<Store<B>>, ops: seq<Op<B>>, k: nat)
    requires IsRun(cap, states, ops) && k <= |ops|
    ensures states[k].cap == (if cap < 1 then 1 else cap)
    ensures states[k].order == LastN(Admitted(states, ops, k), states[k].cap)
    ensures forall h :: h in states[k].blocks <==> h in states[k].order
  {
    QueueIsLastAdmitted(cap, states, ops, k);
    HeldAreQueued(states[k]);
  }

  lemma {:induction false} QueueIsLastAdmitted<B>(cap: nat, states: seq<Store<B>>, ops: seq<Op<B>>, k: nat)
    requires IsRun(cap, states, ops) && k <= |ops|
    ensures states[k].cap == (if cap < 1 then 1 else cap)
    ensures states[k].order == LastN(Admitted(states, ops, k), states[k].cap)
  {
    if k > 0 {
      QueueIsLastAdmitted(cap, states, ops, k - 1);
      HoldsNext(states, ops, k - 1);
    }
  }

  lemma HeldAreQueued<B>(s: Store<B>)
    requires s.Valid()
    ensures forall h :: h in s.blocks <==> h in s.order
  {
  }

  /** One operation keeps the queue the last admitted keys. */
  lemma HoldsNext<B>(states: seq<Store<B>>, ops: seq<Op<B>>, k: nat)
    requires k < |ops| < |states| && Transition(states, ops, k)
    requires states[k].order == LastN(Admitted(states, ops, k), states[k].cap)
    ensures states[k + 1].cap == states[k].cap
    ensures states[k + 1].order == LastN(Admitted(states, ops, k + 1), states[k].cap)
  {
    OrderMoves(states, ops, k);
    LastNSnoc(Admitted(states, ops, k), ops[k].h, states[k].cap);
  }

  lemma OrderMoves<B>(states: seq<Store<B>>, ops: seq<Op<B>>, k: nat)
    requires k < |ops| < |states| && Transition(states, ops, k)
    ensures states[k + 1].cap == states[k].cap >= 1
    ensures var s, op := states[k], ops[k];
      states[k + 1].order == if op.Claim? || op.h in s.blocks then s.order
                             else (if |s.order| < s.cap then s.order else s.order[1..]) + [op.h]
  {
    StepOrder(states[k], ops[k]);
  }
}
