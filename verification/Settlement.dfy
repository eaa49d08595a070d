/** Settlement of network-target solutions in merged mode (share_handler.rs, kaspaapi.rs).

    Any number of submissions settle concurrently while templates keep arriving. Each action
    below is one atomic step of one of them: the Kaspa leg is an RPC, the claim runs under the
    store's mutex, and templates and other submissions may act in between. */
module Settlement {
  import opened Options
  import opened Pending

  /** How far one submission that reached the block branch has come. */
  datatype Phase =
    | Entered       // the nonce clears the ZKas target or the parent's own target
    | KaspaDone     // `submit_merged_parent_if_solved` has returned
    | Credited      // KAS-only: share credited, no claim was attempted
    | Lost          // another nonce already claimed this H_fc: share credited
    | Won           // the claim answered true
    | Submitted     // the assembled ZKas block went to the node
    | NotPending    // the stashed block was gone again, nothing was sent

  /** `hfc` is what the job's coinbase commits to; `None` when it carries no commitment. */
  datatype Solution = Solution(hfc: Option<Hash>, clearsZkas: bool, phase: Phase)

  datatype Event =
    | KaspaLeg(t: nat)
    | ClaimWon(t: nat, hfc: Option<Hash>)
    | ClaimLost(t: nat, h: Hash)
    | ZkasSubmit(t: nat, h: Hash)
    | ZkasMissing(t: nat)
    | Evicted(h: Hash)

  datatype State<B> = State(store: Store<B>, solutions: map<nat, Solution>, log: seq<Event>)

  datatype Action<B> =
    | Template(h: Hash, block: B, paidPool: bool)              // get_block_template stashes a ZKas block
    | Solve(t: nat, hfc: Option<Hash>, clearsZkas: bool)       // a submission enters the block branch
    | Kaspa(t: nat)
    | Claim(t: nat)
    | Submit(t: nat)

  function Init<B>(cap: nat): State<B> {
    State(Empty(cap), map[], [])
  }

  predicate InPhase<B>(s: State<B>, t: nat, p: Phase) {
    t in s.solutions && s.solutions[t].phase == p
  }

  function MoveTo<B>(s: State<B>, t: nat, p: Phase, e: seq<Event>): State<B>
    requires t in s.solutions
  {
    s.(solutions := s.solutions[t := s.solutions[t].(phase := p)], log := s.log + e)
  }

  /** One atomic step; an action that is not enabled changes nothing. */
  function Step<B>(s: State<B>, a: Action<B>): State<B>
    requires s.store.order == [] ==> s.store.cap > 0
  {
    match a
    case Template(h, b, p) =>
      var full := h !in s.store.blocks && |s.store.order| >= s.store.cap;
      s.(store := s.store.Insert(h, b, p), log := if full then s.log + [Evicted(s.store.order[0])] else s.log)
    case Solve(t, hfc, clears) =>
      if t in s.solutions then s else s.(solutions := s.solutions[t := Solution(hfc, clears, Entered)])
    case Kaspa(t) =>
      if InPhase(s, t, Entered) then MoveTo(s, t, KaspaDone, [KaspaLeg(t)]) else s
    case Claim(t) =>
      if !InPhase(s, t, KaspaDone) then s
      else if !s.solutions[t].clearsZkas then MoveTo(s, t, Credited, [])
      else
        (match s.solutions[t].hfc
         case None => MoveTo(s, t, Won, [ClaimWon(t, None)])
         case Some(h) =>
           var claimed := s.(store := s.store.Claim(h));
           if s.store.Claimable(h) then MoveTo(claimed, t, Won, [ClaimWon(t, Some(h))])
           else MoveTo(claimed, t, Lost, [ClaimLost(t, h)]))
    case Submit(t) =>
      if !InPhase(s, t, Won) then s
      else
        match s.solutions[t].hfc
        case Some(h) =>
          if h in s.store.blocks then MoveTo(s, t, Submitted, [ZkasSubmit(t, h)])
          else MoveTo(s, t, NotPending, [ZkasMissing(t)])
        case None => MoveTo(s, t, NotPending, [ZkasMissing(t)])
  }

  lemma StepKeepsStoreValid<B>(s: State<B>, a: Action<B>)
    requires s.store.Valid()
    ensures Step(s, a).store.Valid()
  {
    if a.Template? {
      InsertKeepsValid(s.store, a.h, a.block, a.paidPool);
    }
  }

  /** The state after a run of actions in any interleaving. */
  function After<B>(cap: nat, run: seq<Action<B>>): (s: State<B>)
    ensures s.store.Valid()
  {
    if run == [] then Init(cap)
    else
      var before := After(cap, run[..|run| - 1]);
      StepKeepsStoreValid(before, run[|run| - 1]);
      Step(before, run[|run| - 1])
  }

  // ---- The life of one submission ----------------------------------------

  predicate Concerns(e: Event, t: nat) {
    !e.Evicted? && e.t == t
  }

  /** The events of submission `t`, in log order. */
  function Trace(log: seq<Event>, t: nat): seq<Event> {
    if log == [] then []
    else Trace(log[..|log| - 1], t) + if Concerns(log[|log| - 1], t) then [log[|log| - 1]] else []
  }

  lemma TraceSnoc(log: seq<Event>, e: Event, t: nat)
    ensures Trace(log + [e], t) == Trace(log, t) + if Concerns(e, t) then [e] else []
  {
  }

  /** What a submission in each phase has done, completely and in order: the Kaspa leg comes
      first and happens once, the node sees the ZKas block only after a won claim, and a
      KAS-only solution does nothing else. */
  function Expected(s: Solution, t: nat): seq<Event> {
    match s.phase
    case Entered => []
    case KaspaDone => [KaspaLeg(t)]
    case Credited => [KaspaLeg(t)]
    case Lost => [KaspaLeg(t), ClaimLost(t, s.hfc.GetOr(0))]
    case Won => [KaspaLeg(t), ClaimWon(t, s.hfc)]
    case Submitted => [KaspaLeg(t), ClaimWon(t, s.hfc), ZkasSubmit(t, s.hfc.GetOr(0))]
    case NotPending => [KaspaLeg(t), ClaimWon(t, s.hfc), ZkasMissing(t)]
  }

  ghost predicate TracesOk<B>(s: State<B>) {
    forall t :: TraceOk(s, t)
  }

  ghost predicate PhasesOk<B>(s: State<B>) {
    forall t :: t in s.solutions ==> PhaseOk(s.solutions[t])
  }

  predicate PhaseOk(sol: Solution) {
    match sol.phase
    case Entered => true
    case KaspaDone => true
    case Credited => !sol.clearsZkas
    case Lost => sol.clearsZkas && sol.hfc.Some?
    case Won => sol.clearsZkas
    case Submitted => sol.clearsZkas && sol.hfc.Some?
    case NotPending => sol.clearsZkas
  }

  /** A won claim stays in force (the key is still marked solved) until its key is evicted. */
  ghost predicate InForceUntilEvicted<B>(s: State<B>) {
    forall i: nat, h :: i < |s.log| && IsWin(s.log[i], h) ==> h in s.store.solved || EvictedAfter(s.log, i, h)
  }

  predicate IsWin(e: Event, h: Hash) {
    e.ClaimWon? && e.hfc == Some(h)
  }

  ghost predicate EvictedAfter(log: seq<Event>, i: nat, h: Hash) {
    exists k :: i < k < |log| && log[k] == Evicted(h)
  }

  /** Any two wins of one key have an eviction of that key between them. */
  ghost predicate WinsSeparated(log: seq<Event>) {
    forall i: nat, j: nat, h :: i < j < |log| && IsWin(log[i], h) && IsWin(log[j], h) ==>
      EvictedAfter(log[..j], i, h)
  }

  lemma EvictedAfterExtends(log: seq<Event>, more: seq<Event>, i: nat, h: Hash)
    requires EvictedAfter(log, i, h)
    ensures EvictedAfter(log + more, i, h)
  {
    var k :| i < k < |log| && log[k] == Evicted(h);
    assert (log + more)[k] == Evicted(h);
  }

  /** A step appends at most one event. */
  lemma StepLog<B>(s: State<B>, a: Action<B>) returns (more: seq<Event>)
    requires s.store.Valid()
    ensures |more| <= 1 && Step(s, a).log == s.log + more
    ensures forall h :: h in s.store.solved && h !in Step(s, a).store.solved ==> more == [Evicted(h)]
    ensures forall h :: more != [] && IsWin(more[0], h) ==> h !in s.store.solved && h in Step(s, a).store.solved
  {
    var s' := Step(s, a);
    more := if s'.log == s.log then [] else [s'.log[|s.log|]];
    assert s'.log == s.log + more;
  }

  ghost predicate TraceOk<B>(s: State<B>, t: nat) {
    Trace(s.log, t) == if t in s.solutions then Expected(s.solutions[t], t) else []
  }

  /** An action leaves every submission alone except the one it names. */
  lemma StepIsLocal<B>(s: State<B>, a: Action<B>, t: nat, more: seq<Event>)
    requires s.store.Valid() && (a.Template? || a.t != t)
    requires |more| <= 1 && Step(s, a).log == s.log + more
    ensures t in Step(s, a).solutions <==> t in s.solutions
    ensures t in s.solutions ==> Step(s, a).solutions[t] == s.solutions[t]
    ensures more != [] ==> !Concerns(more[0], t)
  {
    if more != [] {
      assert Step(s, a).log[|s.log|] == more[0];
    }
  }

  lemma OwnStep<B>(s: State<B>, a: Action<B>, more: seq<Event>)
    requires s.store.Valid() && PhasesOk(s) && !a.Template?
    requires |more| <= 1 && Step(s, a).log == s.log + more
    ensures more != [] ==> Concerns(more[0], a.t)
    ensures (if a.t in Step(s, a).solutions then Expected(Step(s, a).solutions[a.t], a.t) else [])
         == (if a.t in s.solutions then Expected(s.solutions[a.t], a.t) else []) + more
  {
    if more != [] {
      assert Step(s, a).log[|s.log|] == more[0];
    }
    if a.t in s.solutions {
      assert PhaseOk(s.solutions[a.t]);
    }
  }

  lemma TraceGrows(log: seq<Event>, more: seq<Event>, t: nat)
    requires |more| <= 1
    ensures Trace(log + more, t) == Trace(log, t) + if more != [] && Concerns(more[0], t) then more else []
  {
    if more == [] {
      assert log + more == log;
    } else {
      TraceSnoc(log, more[0], t);
    }
  }

  lemma OtherKeepsTrace<B>(s: State<B>, a: Action<B>, t: nat, more: seq<Event>)
    requires s.store.Valid() && TraceOk(s, t) && (a.Template? || a.t != t)
    requires |more| <= 1 && Step(s, a).log == s.log + more
    ensures TraceOk(Step(s, a), t)
  {
    StepIsLocal(s, a, t, more);
    TraceGrows(s.log, more, t);
  }

  lemma OwnKeepsTrace<B>(s: State<B>, a: Action<B>, more: seq<Event>)
    requires s.store.Valid() && PhasesOk(s) && !a.Template? && TraceOk(s, a.t)
    requires |more| <= 1 && Step(s, a).log == s.log + more
    ensures TraceOk(Step(s, a), a.t)
  {
    OwnStep(s, a, more);
    TraceGrows(s.log, more, a.t);
  }

  lemma StepKeepsTrace<B>(s: State<B>, a: Action<B>, t: nat)
    requires s.store.Valid() && PhasesOk(s) && TraceOk(s, t)
    ensures TraceOk(Step(s, a), t)
  {
    var more := StepLog(s, a);
    if a.Template? || a.t != t {
      OtherKeepsTrace(s, a, t, more);
    } else {
      OwnKeepsTrace(s, a, more);
    }
  }

  lemma StepKeepsPhases<B>(s: State<B>, a: Action<B>)
    requires s.store.Valid() && PhasesOk(s)
    ensures PhasesOk(Step(s, a))
  {
  }

  lemma StepKeepsTraces<B>(s: State<B>, a: Action<B>)
    requires s.store.Valid() && TracesOk(s) && PhasesOk(s)
    ensures TracesOk(Step(s, a)) && PhasesOk(Step(s, a))
  {
    StepKeepsPhases(s, a);
    forall t ensures TraceOk(Step(s, a), t) {
      assert TraceOk(s, t);
      StepKeepsTrace(s, a, t);
    }
  }

  lemma StepKeepsWins<B>(s: State<B>, a: Action<B>)
    requires s.store.Valid() && InForceUntilEvicted(s) && WinsSeparated(s.log)
    ensures InForceUntilEvicted(Step(s, a)) && WinsSeparated(Step(s, a).log)
  {
    var s' := Step(s, a);
    var more := StepLog(s, a);
    var n := |s.log|;
    forall i: nat, h | i < |s'.log| && IsWin(s'.log[i], h)
      ensures h in s'.store.solved || EvictedAfter(s'.log, i, h)
    {
      if i < n {
        if EvictedAfter(s.log, i, h) {
          EvictedAfterExtends(s.log, more, i, h);
        } else if h !in s'.store.solved {
          assert s'.log[n] == Evicted(h);
        }
      }
    }
    forall i: nat, j: nat, h | i < j < |s'.log| && IsWin(s'.log[i], h) && IsWin(s'.log[j], h)
      ensures EvictedAfter(s'.log[..j], i, h)
    {
      if j < n {
        assert s'.log[..j] == s.log[..j];
      } else {
        assert s'.log[..j] == s.log;
      }
    }
  }

  lemma {:induction false} RunInvariant<B>(cap: nat, run: seq<Action<B>>)
    ensures TracesOk(After(cap, run)) && PhasesOk(After(cap, run))
    ensures InForceUntilEvicted(After(cap, run)) && WinsSeparated(After(cap, run).log)
  {
    if run != [] {
      var n := |run| - 1;
      RunInvariant(cap, run[..n]);
      StepKeepsTraces(After(cap, run[..n]), run[n]);
      StepKeepsWins(After(cap, run[..n]), run[n]);
    }
  }

  // ---- The promises -------------------------------------------------------

  /** Where an event of `t` stands in the trace of `t`: the events of `t` before it in the log are
      those before it in the trace. */
  lemma {:induction false} TracePosition(log: seq<Event>, t: nat, i: nat)
    requires i < |log| && Concerns(log[i], t)
    ensures |Trace(log[..i], t)| < |Trace(log, t)|
    ensures Trace(log, t)[..|Trace(log[..i], t)|] == Trace(log[..i], t)
    ensures Trace(log, t)[|Trace(log[..i], t)|] == log[i]
  {
    var n := |log| - 1;
    if i < n {
      TracePosition(log[..n], t, i);
      assert log[..n][..i] == log[..i];
    }
  }

  /** In every interleaving, the whole life of every submission is the one its phase prescribes. */
  lemma WholeLife<B>(cap: nat, run: seq<Action<B>>, t: nat)
    ensures TraceOk(After(cap, run), t)
    ensures t in After(cap, run).solutions ==> PhaseOk(After(cap, run).solutions[t])
  {
    RunInvariant(cap, run);
    assert TraceOk(After(cap, run), t);
  }

  /** In every interleaving each submission runs the Kaspa leg at most once, and everything else
      it does comes after it; it claims only if it clears the ZKas target. */
  lemma KaspaLegFirstAndOnce<B>(cap: nat, run: seq<Action<B>>, i: nat, t: nat)
    requires i < |After(cap, run).log| && Concerns(After(cap, run).log[i], t)
    ensures t in After(cap, run).solutions
    ensures After(cap, run).log[i] != KaspaLeg(t) ==>
              && After(cap, run).solutions[t].clearsZkas
              && exists j :: 0 <= j < i && After(cap, run).log[j] == KaspaLeg(t)
    ensures After(cap, run).log[i] == KaspaLeg(t) ==>
              forall j :: 0 <= j < |After(cap, run).log| && After(cap, run).log[j] == KaspaLeg(t) ==> j == i
  {
    var s := After(cap, run);
    WholeLife(cap, run, t);
    TracePosition(s.log, t, i);
    if s.log[i] != KaspaLeg(t) {
      assert Trace(s.log[..i], t)[0] == KaspaLeg(t);
      var j := TraceEventInLog(s.log[..i], t, KaspaLeg(t));
      assert s.log[j] == KaspaLeg(t);
    } else {
      forall j | 0 <= j < |s.log| && s.log[j] == KaspaLeg(t) ensures j == i {
        TracePosition(s.log, t, j);
        SamePosition(s.log, t, i, j);
      }
    }
  }

  /** Two events of `t` at the same trace position are the same event. */
  lemma SamePosition(log: seq<Event>, t: nat, i: nat, j: nat)
    requires i < |log| && j < |log| && Concerns(log[i], t) && Concerns(log[j], t)
    requires |Trace(log[..i], t)| == |Trace(log[..j], t)|
    ensures i == j
  {
    if i < j {
      TraceOrder(log, t, i, j);
    } else if j < i {
      TraceOrder(log, t, j, i);
    }
  }

  lemma TraceOrder(log: seq<Event>, t: nat, i: nat, j: nat)
    requires i < j <= |log| && Concerns(log[i], t)
    ensures |Trace(log[..i], t)| < |Trace(log[..j], t)|
  {
    TracePosition(log[..j], t, i);
    assert log[..j][..i] == log[..i];
  }

  /** Each H_fc wins at most one claim between an insertion and its eviction. */
  lemma OneWinPerLifetime<B>(cap: nat, run: seq<Action<B>>, i: nat, j: nat, h: Hash)
    requires i < j < |After(cap, run).log|
    requires IsWin(After(cap, run).log[i], h) && IsWin(After(cap, run).log[j], h)
    ensures exists k :: i < k < j && After(cap, run).log[k] == Evicted(h)
  {
    RunInvariant(cap, run);
    var log := After(cap, run).log;
    assert EvictedAfter(log[..j], i, h);
    var k :| i < k < j && log[..j][k] == Evicted(h);
    assert log[k] == Evicted(h);
  }

  lemma {:induction false} TraceEventInLog(log: seq<Event>, t: nat, e: Event) returns (i: nat)
    requires e in Trace(log, t)
    ensures i < |log| && log[i] == e && Concerns(e, t)
  {
    var n := |log| - 1;
    if Concerns(log[n], t) && log[n] == e {
      i := n;
    } else {
      i := TraceEventInLog(log[..n], t, e);
    }
  }

  /** The node is handed a ZKas block only by a submission that won its claim before, and two
      submissions hand over the same H_fc only across an eviction: each won its own claim, and
      H_fc was evicted between the two wins. */
  lemma AtMostOneSubmitPerLifetime<B>(cap: nat, run: seq<Action<B>>, i: nat, t: nat, h: Hash)
    requires i < |After(cap, run).log| && After(cap, run).log[i] == ZkasSubmit(t, h)
    ensures exists w :: 0 <= w < i && After(cap, run).log[w] == ClaimWon(t, Some(h))
    ensures forall j: nat, t' :: j < |After(cap, run).log| && After(cap, run).log[j] == ZkasSubmit(t', h) && t' != t ==>
              SeparateLifetimes(After(cap, run).log, t, t', h)
    ensures forall j: nat :: j < |After(cap, run).log| && After(cap, run).log[j] == ZkasSubmit(t, h) ==> j == i
  {
    var s := After(cap, run);
    var w := WinOfSubmit(cap, run, i, t, h);
    forall j: nat, t' | j < |s.log| && s.log[j] == ZkasSubmit(t', h) && t' != t
      ensures SeparateLifetimes(s.log, t, t', h)
    {
      var w' := WinOfSubmit(cap, run, j, t', h);
      if w < w' { OneWinPerLifetime(cap, run, w, w', h); } else { OneWinPerLifetime(cap, run, w', w, h); }
      assert WinsAcross(s.log, t, t', h, w, w');
    }
    WholeLife(cap, run, t);
    TracePosition(s.log, t, i);
    forall j: nat | j < |s.log| && s.log[j] == ZkasSubmit(t, h) ensures j == i {
      TracePosition(s.log, t, j);
      SamePosition(s.log, t, i, j);
    }
  }

  /** Both submissions won a claim on `h`, and `h` was evicted between the two wins. */
  ghost predicate SeparateLifetimes(log: seq<Event>, t: nat, t': nat, h: Hash) {
    exists w, w' :: WinsAcross(log, t, t', h, w, w')
  }

  ghost predicate WinsAcross(log: seq<Event>, t: nat, t': nat, h: Hash, w: nat, w': nat) {
    && w < |log| && log[w] == ClaimWon(t, Some(h)) && w' < |log| && log[w'] == ClaimWon(t', Some(h))
    && exists k :: (w < k < w' || w' < k < w) && 0 <= k < |log| && log[k] == Evicted(h)
  }

  lemma WinOfSubmit<B>(cap: nat, run: seq<Action<B>>, i: nat, t: nat, h: Hash) returns (w: nat)
    requires i < |After(cap, run).log| && After(cap, run).log[i] == ZkasSubmit(t, h)
    ensures w < i && After(cap, run).log[w] == ClaimWon(t, Some(h))
  {
    var s := After(cap, run);
    WholeLife(cap, run, t);
    TracePosition(s.log, t, i);
    assert s.solutions[t].hfc == Some(h);
    assert Trace(s.log[..i], t)[1] == ClaimWon(t, Some(h));
    w := TraceEventInLog(s.log[..i], t, ClaimWon(t, Some(h)));
  }

  /** Over every run the ZKas store moves only with a template or with a won claim, and a won
      claim only marks its own key: a solution that clears Kaspa alone, or comes too late,
      changes nothing that is pending, solved or attributed. */
  lemma StoreMovesOnlyByTemplateOrWin<B>(cap: nat, run: seq<Action<B>>, k: nat)
    requires k < |run|
    ensures || run[k].Template?
            || After(cap, run[..k + 1]).store == After(cap, run[..k]).store
            || exists h :: WinsAt(cap, run, k, h)
  {
    var before, after := After(cap, run[..k]), After(cap, run[..k + 1]);
    assert run[..k + 1][..k] == run[..k];
    assert after == Step(before, run[k]);
    if run[k].Claim? && after.store != before.store {
      assert WinsAt(cap, run, k, before.solutions[run[k].t].hfc.value);
    }
  }

  /** Action `k` is the claim of a ZKas-clearing submission; it is the first on `h` and marks `h` only. */
  ghost predicate WinsAt<B>(cap: nat, run: seq<Action<B>>, k: nat, h: Hash)
    requires k < |run|
  {
    var before, after := After(cap, run[..k]), After(cap, run[..k + 1]);
    && run[k].Claim? && run[k].t in before.solutions && before.solutions[run[k].t].clearsZkas
    && after.log == before.log + [ClaimWon(run[k].t, Some(h))]
    && h !in before.store.solved
    && after.store == before.store.(solved := before.store.solved + {h})
  }
}
