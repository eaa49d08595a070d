/** What the ZKas node receives (kaspaapi.rs): settlement followed by the block guard.

    A submission that took its block off the pending store marks the block's hash in
    `BlockSubmitGuard`, calls the node if the mark is new, and takes the mark back when the call
    fails. Marking and taking back are critical sections; the calls and every other step of every
    submission may come in between. */
module Delivery {
  import opened Options
  import opened Pending
  import opened Settlement
  import opened SubmitGuards
  import MarkOrder

  /** `key` prints the hash of a ZKas block, which carrying a proof does not change. */
  datatype Setting = Setting(cap: nat, lim: Limits, key: Hash -> Key)

  datatype Call =
    | Sent(mark: nat)   // the node was called, after guard operation `mark`
    | Answered
    | Duplicate         // the guard held the hash: the node was not called

  /** The settlement so far and the history of the guard: `ops[m]` was carried out by submission
      `who[m]` and led from `guards[m]` to `guards[m + 1]`. */
  datatype World<B> = World(
    actions: seq<Action<B>>, guards: seq<Guard<()>>, ops: seq<BlockOp>, who: seq<nat>, calls: map<nat, Call>)

  datatype Move<B> =
    | Settle(a: Action<B>)
    | Deliver(t: nat, now: nat)
    | Answer(t: nat, failed: bool, now: nat)

  function Settled<B>(w: World<B>, env: Setting): State<B> {
    After(env.cap, w.actions)
  }

  /** The hash of the block that submission `t` hands over. */
  function HashOf<B>(w: World<B>, env: Setting, t: nat): Hash {
    var s := Settled(w, env).solutions;
    if t in s then s[t].hfc.GetOr(0) else 0
  }

  function Guarded<B>(w: World<B>, op: BlockOp, t: nat, c: Call, lim: Limits): World<B>
    requires |w.guards| == |w.ops| + 1
  {
    World(w.actions, w.guards + [BlockStep(w.guards[|w.ops|], op, lim)], w.ops + [op], w.who + [t], w.calls[t := c])
  }

  /** One step; a move that is not enabled changes nothing. */
  function Next<B>(w: World<B>, m: Move<B>, env: Setting): (r: World<B>)
    requires |w.guards| == |w.ops| + 1
    ensures |r.guards| == |r.ops| + 1
  {
    match m
    case Settle(a) => w.(actions := w.actions + [a])
    case Deliver(t, now) =>
      if !InPhase(Settled(w, env), t, Submitted) || t in w.calls then w
      else
        var h := env.key(HashOf(w, env, t));
        var held := h in Pruned(w.guards[|w.ops|], now, env.lim).entries;
        Guarded(w, TryMark(h, now), t, if held then Duplicate else Sent(|w.ops|), env.lim)
    case Answer(t, failed, now) =>
      if t !in w.calls || !w.calls[t].Sent? then w
      else if failed then Guarded(w, RemoveOp(env.key(HashOf(w, env, t)), now), t, Answered, env.lim)
      else w.(calls := w.calls[t := Answered])
  }

  /** The world after a run of moves in any interleaving. */
  function WorldAfter<B>(moves: seq<Move<B>>, env: Setting): (w: World<B>)
    ensures |w.guards| == |w.ops| + 1
  {
    if moves == [] then World([], [Guard(map[], [])], [], [], map[])
    else Next(WorldAfter(moves[..|moves| - 1], env), moves[|moves| - 1], env)
  }

  // ---- What every run keeps -------------------------------------------------------------

  /** Guard operation `m` is a new mark: the node is called. */
  ghost predicate Delivered<B>(w: World<B>, env: Setting, m: nat) {
    m < |w.ops| < |w.guards| && Marked(w.guards, w.ops, env.lim, m)
  }

  /** Operation `m` belongs to a submission that handed over the block it names. */
  ghost predicate OpOk<B>(w: World<B>, env: Setting, m: nat)
    requires m < |w.ops| == |w.who|
  {
    && InPhase(Settled(w, env), w.who[m], Submitted) && w.who[m] in w.calls
    && w.ops[m].h == env.key(HashOf(w, env, w.who[m]))
    && (w.ops[m].RemoveOp? ==> AfterFailedCall(w, env, m))
  }

  /** Operation `m` takes back the mark of an earlier call that failed, of the same hash. */
  ghost predicate AfterFailedCall<B>(w: World<B>, env: Setting, m: nat)
    requires m < |w.ops| == |w.who|
  {
    exists i :: 0 <= i < m && Delivered(w, env, i) && w.who[i] == w.who[m] && w.ops[i].h == w.ops[m].h
  }

  ghost predicate CallOk<B>(w: World<B>, env: Setting, t: nat)
    requires t in w.calls && |w.who| == |w.ops|
  {
    && InPhase(Settled(w, env), t, Submitted)
    && (w.calls[t].Sent? ==> Delivered(w, env, w.calls[t].mark) && w.who[w.calls[t].mark] == t)
  }

  ghost predicate Ok<B>(w: World<B>, env: Setting) {
    && IsBlockRun(w.guards, w.ops, env.lim) && |w.who| == |w.ops|
    && (forall m :: 0 <= m < |w.ops| ==> OpOk(w, env, m))
    && (forall m, n :: 0 <= m < n < |w.ops| && w.ops[m].TryMark? && w.ops[n].TryMark? ==> w.who[m] != w.who[n])
    && (forall t :: t in w.calls ==> CallOk(w, env, t))
  }

  /** Settlement never touches a submission that has handed over its block. */
  lemma SubmittedStays<B>(s: State<B>, a: Action<B>, t: nat)
    requires s.store.Valid() && InPhase(s, t, Submitted)
    ensures InPhase(Settlement.Step(s, a), t, Submitted) && Settlement.Step(s, a).solutions[t] == s.solutions[t]
  {
  }

  lemma SettleKeepsOk<B>(w: World<B>, a: Action<B>, env: Setting)
    requires Ok(w, env)
    ensures Ok(Next(w, Settle(a), env), env)
  {
    var r := Next(w, Settle(a), env);
    SettledNext(w, a, env);
    forall m | 0 <= m < |r.ops| ensures OpOk(r, env, m) {
      assert OpOk(w, env, m);
      SubmittedStays(Settled(w, env), a, w.who[m]);
      SameDeliveries(w, r, env, m);
    }
    forall t | t in r.calls ensures CallOk(r, env, t) {
      assert CallOk(w, env, t);
      SubmittedStays(Settled(w, env), a, t);
    }
  }

  lemma SettledNext<B>(w: World<B>, a: Action<B>, env: Setting)
    requires |w.guards| == |w.ops| + 1
    ensures Settled(Next(w, Settle(a), env), env) == Settlement.Step(Settled(w, env), a)
  {
    assert (w.actions + [a])[..|w.actions|] == w.actions;
  }

  /** A longer history has the same deliveries in front. */
  ghost predicate Extends<B>(w: World<B>, r: World<B>) {
    && |w.guards| == |w.ops| + 1 && |w.who| == |w.ops| && |r.guards| == |r.ops| + 1 && |r.who| == |r.ops|
    && w.ops <= r.ops && w.guards <= r.guards && w.who <= r.who
  }

  lemma SameDeliveries<B>(w: World<B>, r: World<B>, env: Setting, m: nat)
    requires Extends(w, r) && m < |w.ops|
    ensures Delivered(w, env, m) <==> Delivered(r, env, m)
    ensures AfterFailedCall(w, env, m) ==> AfterFailedCall(r, env, m)
  {
    assert forall i :: 0 <= i < |w.ops| ==> (Delivered(w, env, i) <==> Delivered(r, env, i));
    if AfterFailedCall(w, env, m) {
      var i :| 0 <= i < m && Delivered(w, env, i) && w.who[i] == w.who[m] && w.ops[i].h == w.ops[m].h;
      assert Delivered(r, env, i) && r.who[i] == r.who[m] && r.ops[i].h == r.ops[m].h;
    }
  }

  lemma GuardedRun<B>(w: World<B>, op: BlockOp, t: nat, c: Call, lim: Limits)
    requires IsBlockRun(w.guards, w.ops, lim) && |w.who| == |w.ops|
    ensures var r := Guarded(w, op, t, c, lim); IsBlockRun(r.guards, r.ops, lim) && Extends(w, r)
  {
    MarkOrder.RunOn(w.guards, w.ops, op, BlockStep(w.guards[|w.ops|], op, lim), lim);
  }

  /** A guard operation of submission `t`, which has handed over its block, keeps the invariant. */
  lemma GuardedKeepsOk<B>(w: World<B>, op: BlockOp, t: nat, c: Call, env: Setting)
    requires Ok(w, env) && InPhase(Settled(w, env), t, Submitted) && op.h == env.key(HashOf(w, env, t))
    requires op.TryMark? ==> t !in w.calls
    requires op.RemoveOp? ==> t in w.calls && w.calls[t].Sent?
    requires c.Sent? ==> op.TryMark? && c.mark == |w.ops|
                         && op.h !in Pruned(w.guards[|w.ops|], op.now, env.lim).entries
    ensures Ok(Guarded(w, op, t, c, env.lim), env)
  {
    var r := Guarded(w, op, t, c, env.lim);
    GuardedRun(w, op, t, c, env.lim);
    if c.Sent? { NewMarkDelivers(w, r, op, t, env); }
    OpsStayOk(w, r, op, t, env);
    MarksStayDistinct(w, r, op, t, env);
    CallsStayOk(w, r, op, t, c, env);
  }

  /** `r` is `w` after one more guard operation, of submission `t`. */
  ghost predicate Appends<B>(w: World<B>, r: World<B>, op: BlockOp, t: nat, env: Setting) {
    && Ok(w, env) && Extends(w, r) && r.actions == w.actions
    && r.ops == w.ops + [op] && r.who == w.who + [t]
    && InPhase(Settled(w, env), t, Submitted) && op.h == env.key(HashOf(w, env, t))
  }

  lemma NewMarkDelivers<B>(w: World<B>, r: World<B>, op: BlockOp, t: nat, env: Setting)
    requires Appends(w, r, op, t, env) && op.TryMark?
    requires op.h !in Pruned(w.guards[|w.ops|], op.now, env.lim).entries
    ensures Delivered(r, env, |w.ops|) && r.who[|w.ops|] == t
  {
  }

  lemma OpsStayOk<B>(w: World<B>, r: World<B>, op: BlockOp, t: nat, env: Setting)
    requires Appends(w, r, op, t, env) && r.calls.Keys == w.calls.Keys + {t}
    requires op.RemoveOp? ==> t in w.calls && w.calls[t].Sent?
    ensures forall m :: 0 <= m < |r.ops| ==> OpOk(r, env, m)
  {
    forall m | 0 <= m < |r.ops| ensures OpOk(r, env, m) {
      if m < |w.ops| {
        assert OpOk(w, env, m);
        SameDeliveries(w, r, env, m);
      } else if op.RemoveOp? {
        RemovesItsOwnMark(w, r, t, env);
      }
    }
  }

  lemma MarksStayDistinct<B>(w: World<B>, r: World<B>, op: BlockOp, t: nat, env: Setting)
    requires Appends(w, r, op, t, env) && (op.TryMark? ==> t !in w.calls)
    ensures forall m, k :: 0 <= m < k < |r.ops| && r.ops[m].TryMark? && r.ops[k].TryMark? ==> r.who[m] != r.who[k]
  {
    forall m, k | 0 <= m < k < |r.ops| && r.ops[m].TryMark? && r.ops[k].TryMark? ensures r.who[m] != r.who[k] {
      assert OpOk(w, env, m);
    }
  }

  lemma CallsStayOk<B>(w: World<B>, r: World<B>, op: BlockOp, t: nat, c: Call, env: Setting)
    requires Appends(w, r, op, t, env) && r.calls == w.calls[t := c]
    requires c.Sent? ==> Delivered(r, env, c.mark) && r.who[c.mark] == t
    ensures forall u :: u in r.calls ==> CallOk(r, env, u)
  {
    forall u | u in r.calls ensures CallOk(r, env, u) {
      if u != t {
        assert CallOk(w, env, u);
        if w.calls[u].Sent? { SameDeliveries(w, r, env, w.calls[u].mark); }
      }
    }
  }

  lemma RemovesItsOwnMark<B>(w: World<B>, r: World<B>, t: nat, env: Setting)
    requires Ok(w, env) && Extends(w, r) && t in w.calls && w.calls[t].Sent?
    requires |r.ops| == |w.ops| + 1 && r.who[|w.ops|] == t && r.ops[|w.ops|].h == env.key(HashOf(w, env, t))
    ensures AfterFailedCall(r, env, |w.ops|)
  {
    assert CallOk(w, env, t);
    var i := w.calls[t].mark;
    assert OpOk(w, env, i);
    SameDeliveries(w, r, env, i);
    assert r.who[i] == t && r.ops[i].h == r.ops[|w.ops|].h;
  }

  lemma AnswerKeepsOk<B>(w: World<B>, t: nat, env: Setting)
    requires Ok(w, env) && t in w.calls
    ensures Ok(w.(calls := w.calls[t := Answered]), env)
  {
    var r := w.(calls := w.calls[t := Answered]);
    forall m | 0 <= m < |r.ops| ensures OpOk(r, env, m) {
      assert OpOk(w, env, m);
      SameDeliveries(w, r, env, m);
    }
    forall u | u in r.calls ensures CallOk(r, env, u) {
      assert CallOk(w, env, u);
    }
  }

  lemma StepKeepsOk<B>(w: World<B>, m: Move<B>, env: Setting)
    requires Ok(w, env)
    ensures Ok(Next(w, m, env), env)
  {
    match m
    case Settle(a) => SettleKeepsOk(w, a, env);
    case Deliver(t, now) =>
      if InPhase(Settled(w, env), t, Submitted) && t !in w.calls {
        var h := env.key(HashOf(w, env, t));
        var held := h in Pruned(w.guards[|w.ops|], now, env.lim).entries;
        GuardedKeepsOk(w, TryMark(h, now), t, if held then Duplicate else Sent(|w.ops|), env);
      }
    case Answer(t, failed, now) =>
      if t in w.calls && w.calls[t].Sent? {
        assert CallOk(w, env, t);
        if failed {
          GuardedKeepsOk(w, RemoveOp(env.key(HashOf(w, env, t)), now), t, Answered, env);
        } else {
          AnswerKeepsOk(w, t, env);
        }
      }
  }

  lemma {:induction false} RunKeepsOk<B>(moves: seq<Move<B>>, env: Setting)
    ensures Ok(WorldAfter(moves, env), env)
  {
    if moves != [] {
      RunKeepsOk(moves[..|moves| - 1], env);
      StepKeepsOk(WorldAfter(moves[..|moves| - 1], env), moves[|moves| - 1], env);
    }
  }

  // ---- The promises ---------------------------------------------------------------------

  lemma HandedOver<B>(cap: nat, run: seq<Action<B>>, t: nat) returns (i: nat)
    requires InPhase(After(cap, run), t, Submitted)
    ensures var s := After(cap, run);
      i < |s.log| && s.log[i] == ZkasSubmit(t, s.solutions[t].hfc.GetOr(0))
  {
    var s := After(cap, run);
    WholeLife(cap, run, t);
    assert Trace(s.log, t)[2] == ZkasSubmit(t, s.solutions[t].hfc.GetOr(0));
    i := TraceEventInLog(s.log, t, ZkasSubmit(t, s.solutions[t].hfc.GetOr(0)));
  }

  /** Operation `m` ends the hold on `h`; when it does so by a removal, a call with `h` failed before. */
  ghost predicate EndsHold<B>(w: World<B>, env: Setting, m: nat, h: Key)
  {
    && m < |w.ops| == |w.who| < |w.guards| && Releases(w.guards[m], w.ops[m], h, env.lim)
    && (w.ops[m].RemoveOp? ==> AfterFailedCall(w, env, m))
  }

  lemma StoreGate<B>(w: World<B>, env: Setting, i: nat, j: nat)
    requires Ok(w, env) && i < j < |w.ops| && w.ops[i].TryMark? && w.ops[j].TryMark?
    requires HashOf(w, env, w.who[i]) == HashOf(w, env, w.who[j])
    ensures w.who[i] != w.who[j]
    ensures SeparateLifetimes(Settled(w, env).log, w.who[i], w.who[j], HashOf(w, env, w.who[i]))
  {
    assert OpOk(w, env, i) && OpOk(w, env, j);
    var a := HandedOver(env.cap, w.actions, w.who[i]);
    var b := HandedOver(env.cap, w.actions, w.who[j]);
    AtMostOneSubmitPerLifetime(env.cap, w.actions, a, w.who[i], HashOf(w, env, w.who[i]));
  }

  lemma GuardGate<B>(w: World<B>, env: Setting, i: nat, j: nat)
    requires Ok(w, env) && i < j && Delivered(w, env, i) && Delivered(w, env, j)
    requires HashOf(w, env, w.who[i]) == HashOf(w, env, w.who[j])
    ensures exists m :: i < m <= j && EndsHold(w, env, m, w.ops[i].h)
  {
    assert OpOk(w, env, i) && OpOk(w, env, j);
    SecondMarkNeedsRelease(w.guards, w.ops, env.lim, i, j);
    var m :| i < m <= j && Releases(w.guards[m], w.ops[m], w.ops[i].h, env.lim);
    ReleaseEndsHold(w, env, m, w.ops[i].h);
  }

  lemma ReleaseEndsHold<B>(w: World<B>, env: Setting, m: nat, h: Key)
    requires Ok(w, env) && m < |w.ops| && Releases(w.guards[m], w.ops[m], h, env.lim)
    ensures EndsHold(w, env, m, h)
  {
    assert OpOk(w, env, m);
  }

  /** In every interleaving the node is called twice with one ZKas block only if both gates opened in
      between: two different submissions each won a claim on it, with an eviction of the pending
      block between the two wins, and the guard's hold on the hash ended after the first call: it
      was forgotten after expiring or over capacity, or a call with it had failed. */
  lemma SecondCallNeedsBothGates<B>(moves: seq<Move<B>>, w: World<B>, env: Setting, i: nat, j: nat)
    requires w == WorldAfter(moves, env) && i < j < |w.who| && Delivered(w, env, i) && Delivered(w, env, j)
    requires HashOf(w, env, w.who[i]) == HashOf(w, env, w.who[j])
    ensures w.who[i] != w.who[j]
    ensures SeparateLifetimes(Settled(w, env).log, w.who[i], w.who[j], HashOf(w, env, w.who[i]))
    ensures exists m :: i < m <= j && EndsHold(w, env, m, w.ops[i].h)
  {
    RunKeepsOk(moves, env);
    StoreGate(w, env, i, j);
    GuardGate(w, env, i, j);
  }

  /** While the readings stay within the TTL of the first call and the guard within its capacity, only
      a failed call lets the node be called again with the same block. */
  lemma SecondCallNeedsAFailedOne<B>(moves: seq<Move<B>>, w: World<B>, env: Setting, i: nat, j: nat)
    returns (m: nat)
    requires w == WorldAfter(moves, env) && i < j < |w.who| && Delivered(w, env, i) && Delivered(w, env, j)
    requires w.ops[i].h == w.ops[j].h
    requires forall n :: i < n <= j ==> w.ops[n].now <= w.ops[i].now + env.lim.ttl
    requires forall n :: i < n <= j ==> |w.guards[n].entries| <= env.lim.maxEntries
    ensures i < m < j && w.ops[m].RemoveOp? && w.ops[m].h == w.ops[i].h && |w.who| == |w.ops|
    ensures AfterFailedCall(w, env, m)
  {
    RunKeepsOk(moves, env);
    m := MarkOrder.SecondMarkWithinWindow(w.guards, w.ops, env.lim, i, j);
    assert OpOk(w, env, m);
  }
}
