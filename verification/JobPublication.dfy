/** The three producers of jobs on one connection (client_handler.rs, stratum_context.rs).

    An immediate job, a full-template job and a parent-only refresh run as concurrent tasks.
    Every step below is one stretch of code between two points where another task can run;
    `Go` advances one task, so a sequence of actions is an arbitrary interleaving. The ring of
    stored jobs is represented by the history it answers from (JobRing.LatestJob). */
module JobPublication {
  import opened Options
  import opened Pending

  datatype Kind = Immediate | FullTemplate | ParentOnly

  datatype Job = Job(hfc: Option<Hash>, kind: Kind)

  /** A successful `mining.notify`; `minInterval` is meaningful for parent-only jobs. */
  datatype Notify = Notify(id: nat, kind: Kind, at: nat, minInterval: nat)

  datatype Task =
    // immediate and full-template producers
    | Waiting(kind: Kind)                  // before `lock_job_build` / `try_lock_job_build`
    | Fetching(kind: Kind)                 // lock held, `get_block_template` in flight
    | Publishing(kind: Kind, id: nat)      // job added, difficulty and notify in flight
    // parent-only refresh: `try_parent_refresh`, then the spawned task
    | Checking(min: nat)
    | Acquiring(min: nat)
    | Rechecking(min: nat)                               // permit held from here on
    | Reading(min: nat, checkedAt: nat)
    | Refreshing(min: nat, checkedAt: nat, expected: Option<Hash>)
    // refreshed carrier in hand: the commitment asked for, and what the carrier commits to
    | Ready(min: nat, checkedAt: nat, expected: Option<Hash>, carrier: Option<Hash>)
    | Comparing(min: nat, checkedAt: nat, expected: Option<Hash>, carrier: Option<Hash>)  // job lock held from here on
    | Adding(min: nat, checkedAt: nat, expected: Option<Hash>, carrier: Option<Hash>)
    | Sending(min: nat, checkedAt: nat, id: nat)
    | Marking(min: nat)
    | Done

  predicate HoldsLock(p: Task) {
    p.Fetching? || p.Publishing? || p.Comparing? || p.Adding? || p.Sending? || p.Marking?
  }

  predicate HoldsPermit(p: Task) {
    p.Rechecking? || p.Reading? || p.Refreshing? || p.Ready? || p.Comparing? || p.Adding? || p.Sending? || p.Marking?
  }

  datatype State = State(
    now: nat,
    lock: Option<nat>,
    permit: Option<nat>,
    lastParentAt: Option<nat>,
    history: seq<Job>,
    tasks: map<nat, Task>,
    log: seq<Notify>)

  const Init := State(0, None, None, None, [], map[], [])

  datatype Action =
    | Tick(elapsed: nat)
    | SpawnJob(t: nat, immediate: bool)
    | SpawnRefresh(t: nat, min: nat)
    | Go(t: nat, ok: bool, hfc: Option<Hash>)  // `ok` and `hfc` are the answers of node and socket

  predicate TooSoon(s: State, min: nat) {
    s.lastParentAt.Some? && s.now < s.lastParentAt.value + min
  }

  function Put(s: State, t: nat, p: Task): State {
    s.(tasks := s.tasks[t := p])
  }

  /** A producer ends and its guards are dropped. */
  function Finish(s: State, t: nat): State {
    s.(tasks := s.tasks[t := Done],
       lock := if s.lock == Some(t) then None else s.lock,
       permit := if s.permit == Some(t) then None else s.permit)
  }

  function Step(s: State, a: Action): State {
    match a
    case Tick(d) => s.(now := s.now + d)
    case SpawnJob(t, imm) => if t in s.tasks then s else Put(s, t, Waiting(if imm then Immediate else FullTemplate))
    case SpawnRefresh(t, min) => if t in s.tasks then s else Put(s, t, Checking(min))
    case Go(t, ok, hfc) => if t in s.tasks then Advance(s, t, s.tasks[t], ok, hfc) else s
  }

  function Advance(s: State, t: nat, p: Task, ok: bool, hfc: Option<Hash>): State {
    match p
    case Waiting(kind) =>
      if s.lock.None? then Put(s, t, Fetching(kind)).(lock := Some(t))
      else if kind == FullTemplate then Finish(s, t)       // coalesced
      else s                                               // keeps waiting
    case Fetching(kind) =>
      if !ok then Finish(s, t)
      else Put(s, t, Publishing(kind, |s.history| + 1)).(history := s.history + [Job(hfc, kind)])
    case Publishing(kind, id) =>
      Finish(if ok then s.(log := s.log + [Notify(id, kind, s.now, 0)]) else s, t)
    case Checking(min) => if TooSoon(s, min) then Finish(s, t) else Put(s, t, Acquiring(min))
    case Acquiring(min) =>
      if s.permit.None? then Put(s, t, Rechecking(min)).(permit := Some(t)) else Finish(s, t)
    case Rechecking(min) => if TooSoon(s, min) then Finish(s, t) else Put(s, t, Reading(min, s.now))
    case Reading(min, c) =>
      if s.history == [] then Finish(s, t) else Put(s, t, Refreshing(min, c, s.history[|s.history| - 1].hfc))
    case Refreshing(min, c, e) =>
      // a carrier without a commitment cannot be refreshed; the node answers with a block of its own
      if ok && e.Some? then Put(s, t, Ready(min, c, e, hfc)) else Finish(s, t)
    case Ready(min, c, e, r) =>
      if s.lock.None? then Put(s, t, Comparing(min, c, e, r)).(lock := Some(t)) else Finish(s, t)
    case Comparing(min, c, e, r) =>
      // only the latest stored job is compared, not the carrier
      if s.history != [] && s.history[|s.history| - 1].hfc == e then Put(s, t, Adding(min, c, e, r)) else Finish(s, t)
    case Adding(min, c, e, r) =>
      if !ok then Finish(s, t)
      else Put(s, t, Sending(min, c, |s.history| + 1)).(history := s.history + [Job(r, ParentOnly)])
    case Sending(min, c, id) =>
      if !ok then Finish(s, t)
      else Put(s, t, Marking(min)).(log := s.log + [Notify(id, ParentOnly, s.now, min)])
    case Marking(min) => Finish(s.(lastParentAt := Some(s.now)), t)
    case Done => s
  }

  // ---- The invariant --------------------------------------------------------

  /** Each guard is held by exactly the producer whose program point says so. */
  predicate GuardOk(s: State, t: nat, p: Task) {
    && (HoldsLock(p) <==> s.lock == Some(t))
    && (HoldsPermit(p) <==> s.permit == Some(t))
    && (p.Waiting? || p.Fetching? || p.Publishing? ==> p.kind != ParentOnly)
  }

  ghost predicate GuardsOk(s: State) {
    && (forall t :: t in s.tasks ==> GuardOk(s, t, s.tasks[t]))
    && (s.lock.Some? ==> s.lock.value in s.tasks)
    && (s.permit.Some? ==> s.permit.value in s.tasks)
  }

  /** A parent-only job repeats the commitment of the job right before it. */
  ghost predicate ChainOk(history: seq<Job>) {
    forall i :: 0 <= i < |history| && history[i].kind == ParentOnly ==> i > 0 && history[i].hfc == history[i - 1].hfc
  }

  ghost predicate Increasing(log: seq<Notify>) {
    forall i, j :: 0 <= i < j < |log| ==> log[i].id < log[j].id
  }

  /** Every notify is about a stored job of that kind. */
  ghost predicate LogOk(s: State) {
    && Increasing(s.log)
    && forall i :: 0 <= i < |s.log| ==>
         1 <= s.log[i].id <= |s.history| && s.log[i].kind == s.history[s.log[i].id - 1].kind
  }

  /** What the holder of the job lock knows. */
  ghost predicate HolderOk(s: State, p: Task) {
    match p
    case Publishing(kind, id) => id == |s.history| && id >= 1 && s.history[id - 1].kind == kind && AllBelow(s.log, id)
    case Sending(_, _, id) =>
      id == |s.history| && id >= 1 && s.history[id - 1].kind == ParentOnly && AllBelow(s.log, id)
    case Adding(_, _, e, _) => s.history != [] && s.history[|s.history| - 1].hfc == e
    case _ => true
  }

  ghost predicate AllBelow(log: seq<Notify>, id: nat) {
    forall i :: 0 <= i < |log| ==> log[i].id < id
  }

  ghost predicate HoldersOk(s: State) {
    forall t :: t in s.tasks ==> HolderOk(s, s.tasks[t])
  }

  ghost predicate OrderOk(s: State) {
    LogOk(s) && HoldersOk(s)
  }

  /** The refreshed carrier commits to what it was asked for. */
  predicate CarrierOk(p: Task) {
    p.Ready? || p.Comparing? || p.Adding? ==> p.carrier == p.expected
  }

  ghost predicate CommitmentsOk(s: State) {
    ChainOk(s.history) && forall t :: t in s.tasks ==> CarrierOk(s.tasks[t])
  }

  /** A node that answers a refresh keeps the commitment it was given. */
  predicate Honest(s: State, a: Action) {
    a.Go? && a.ok && a.t in s.tasks && s.tasks[a.t].Refreshing? ==> a.hfc == s.tasks[a.t].expected
  }

  /** Some task is between its parent-only notify and `mark_parent_job_sent`. */
  predicate MarkPending(s: State) {
    s.permit.Some? && s.permit.value in s.tasks && s.tasks[s.permit.value].Marking?
  }

  predicate Cleared(s: State, checkedAt: nat, min: nat) {
    checkedAt <= s.now && (s.lastParentAt.Some? ==> s.lastParentAt.value + min <= checkedAt)
  }

  /** What a refresh past its second interval check still knows. */
  predicate RefreshOk(s: State, p: Task) {
    match p
    case Reading(min, c) => Cleared(s, c, min)
    case Refreshing(min, c, _) => Cleared(s, c, min)
    case Ready(min, c, _, _) => Cleared(s, c, min)
    case Comparing(min, c, _, _) => Cleared(s, c, min)
    case Adding(min, c, _, _) => Cleared(s, c, min)
    case Sending(min, c, _) => Cleared(s, c, min)
    case _ => true
  }

  ghost predicate Spaced(log: seq<Notify>) {
    forall i, j :: 0 <= i < j < |log| && log[i].kind == ParentOnly && log[j].kind == ParentOnly ==>
      log[i].at + log[j].minInterval <= log[j].at
  }

  /** Every published parent-only job is covered by `last_parent_job_at`, except the one being marked. */
  ghost predicate Covered(s: State) {
    forall i :: 0 <= i < |s.log| && s.log[i].kind == ParentOnly ==>
      || (s.lastParentAt.Some? && s.log[i].at <= s.lastParentAt.value)
      || (i == |s.log| - 1 && MarkPending(s))
  }

  ghost predicate ClockOk(s: State) {
    && (forall i :: 0 <= i < |s.log| ==> s.log[i].at <= s.now)
    && (s.lastParentAt.Some? ==> s.lastParentAt.value <= s.now)
  }

  ghost predicate RefreshesOk(s: State) {
    forall t :: t in s.tasks ==> RefreshOk(s, s.tasks[t])
  }

  ghost predicate PaceOk(s: State) {
    Spaced(s.log) && Covered(s) && ClockOk(s) && RefreshesOk(s)
  }

  // ---- One step of one task ----------------------------------------------------

  predicate Moves(before: Option<nat>, after: Option<nat>, t: nat) {
    after == before || (before == None && after == Some(t)) || (before == Some(t) && after == None)
  }

  /** A step changes its own task only, moves guards only for itself, and touches the stored
      jobs and the wire only under the job lock, the interval only under the permit. */
  lemma AdvanceIsLocal(s: State, t: nat, ok: bool, hfc: Option<Hash>) returns (p: Task)
    requires t in s.tasks && GuardOk(s, t, s.tasks[t])
    ensures var s' := Advance(s, t, s.tasks[t], ok, hfc);
      && s'.tasks == s.tasks[t := p] && GuardOk(s', t, p) && s'.now == s.now
      && Moves(s.lock, s'.lock, t) && Moves(s.permit, s'.permit, t)
      && ((s'.history == s.history && s'.log == s.log) || s.lock == Some(t))
      && (s'.lastParentAt == s.lastParentAt || s.permit == Some(t))
  {
    p := Advance(s, t, s.tasks[t], ok, hfc).tasks[t];
    assert s.tasks[t := s.tasks[t]] == s.tasks;
  }

  lemma StepKeepsGuards(s: State, a: Action)
    requires GuardsOk(s)
    ensures GuardsOk(Step(s, a))
  {
    if a.Go? && a.t in s.tasks {
      var p := AdvanceIsLocal(s, a.t, a.ok, a.hfc);
    }
  }

  lemma AdvanceKeepsLog(s: State, t: nat, ok: bool, hfc: Option<Hash>)
    requires t in s.tasks && GuardOk(s, t, s.tasks[t])
    requires LogOk(s) && HolderOk(s, s.tasks[t])
    ensures var s' := Advance(s, t, s.tasks[t], ok, hfc);
      LogOk(s') && HolderOk(s', s'.tasks[t])
  {
    var p := s.tasks[t];
    if p.Fetching? || p.Adding? {
      AddingKeepsLog(s, t, ok, hfc);
    } else if p.Publishing? || p.Sending? {
      NotifyKeepsLog(s, t, ok, hfc);
    }
  }

  lemma AddingKeepsLog(s: State, t: nat, ok: bool, hfc: Option<Hash>)
    requires t in s.tasks && GuardOk(s, t, s.tasks[t]) && (s.tasks[t].Fetching? || s.tasks[t].Adding?)
    requires LogOk(s) && HolderOk(s, s.tasks[t])
    ensures var s' := Advance(s, t, s.tasks[t], ok, hfc);
      LogOk(s') && HolderOk(s', s'.tasks[t])
  {
  }

  lemma NotifyKeepsLog(s: State, t: nat, ok: bool, hfc: Option<Hash>)
    requires t in s.tasks && GuardOk(s, t, s.tasks[t]) && (s.tasks[t].Publishing? || s.tasks[t].Sending?)
    requires LogOk(s) && HolderOk(s, s.tasks[t])
    ensures var s' := Advance(s, t, s.tasks[t], ok, hfc);
      LogOk(s') && HolderOk(s', s'.tasks[t])
  {
  }

  lemma StepKeepsOrder(s: State, a: Action)
    requires GuardsOk(s) && OrderOk(s)
    ensures OrderOk(Step(s, a))
  {
    var s' := Step(s, a);
    if a.Go? && a.t in s.tasks {
      assert HolderOk(s, s.tasks[a.t]);
      var p := AdvanceIsLocal(s, a.t, a.ok, a.hfc);
      AdvanceKeepsLog(s, a.t, a.ok, a.hfc);
      forall u | u in s'.tasks ensures HolderOk(s', s'.tasks[u]) {
        if u != a.t {
          assert HolderOk(s, s.tasks[u]) && GuardOk(s, u, s.tasks[u]);
        }
      }
    } else {
      forall u | u in s'.tasks ensures HolderOk(s', s'.tasks[u]) {
        if u in s.tasks { assert HolderOk(s, s.tasks[u]); }
      }
    }
  }

  lemma AdvanceKeepsCommitments(s: State, a: Action)
    requires a.Go? && a.t in s.tasks && CommitmentsOk(s) && HolderOk(s, s.tasks[a.t]) && Honest(s, a)
    requires GuardOk(s, a.t, s.tasks[a.t])
    ensures var s' := Advance(s, a.t, s.tasks[a.t], a.ok, a.hfc);
      ChainOk(s'.history) && CarrierOk(s'.tasks[a.t])
  {
    assert CarrierOk(s.tasks[a.t]);
  }

  /** Storing a refreshed carrier keeps the chain of commitments exactly when the carrier commits to
      what the node was asked for. */
  lemma StoringKeepsChainIff(s: State, t: nat, hfc: Option<Hash>)
    requires t in s.tasks && s.tasks[t].Adding? && HolderOk(s, s.tasks[t]) && ChainOk(s.history)
    ensures ChainOk(Advance(s, t, s.tasks[t], true, hfc).history) <==> s.tasks[t].carrier == s.tasks[t].expected
  {
    var h := Advance(s, t, s.tasks[t], true, hfc).history;
    assert h[|h| - 1] == Job(s.tasks[t].carrier, ParentOnly) && h[|h| - 2].hfc == s.tasks[t].expected;
  }

  /** With an honest node every step keeps parent-only jobs on the commitment before them. */
  lemma StepKeepsCommitments(s: State, a: Action)
    requires GuardsOk(s) && OrderOk(s) && CommitmentsOk(s) && Honest(s, a)
    ensures CommitmentsOk(Step(s, a))
  {
    if a.Go? && a.t in s.tasks {
      assert HolderOk(s, s.tasks[a.t]) && GuardOk(s, a.t, s.tasks[a.t]);
      var p := AdvanceIsLocal(s, a.t, a.ok, a.hfc);
      AdvanceKeepsCommitments(s, a);
    }
  }

  lemma AdvanceKeepsPace(s: State, t: nat, ok: bool, hfc: Option<Hash>)
    requires t in s.tasks && GuardsOk(s) && Spaced(s.log) && Covered(s) && ClockOk(s) && RefreshOk(s, s.tasks[t])
    ensures var s' := Advance(s, t, s.tasks[t], ok, hfc);
      Spaced(s'.log) && Covered(s') && ClockOk(s') && RefreshOk(s', s'.tasks[t])
  {
    var p := s.tasks[t];
    if p.Publishing? || p.Sending? {
      NotifyKeepsPace(s, t, ok, hfc);
    } else if p.Marking? {
      MarkKeepsPace(s, t, ok, hfc);
    } else {
      QuietKeepsPace(s, t, ok, hfc);
    }
  }

  lemma NotifyKeepsPace(s: State, t: nat, ok: bool, hfc: Option<Hash>)
    requires t in s.tasks && (s.tasks[t].Publishing? || s.tasks[t].Sending?)
    requires GuardsOk(s) && Spaced(s.log) && Covered(s) && ClockOk(s) && RefreshOk(s, s.tasks[t])
    ensures var s' := Advance(s, t, s.tasks[t], ok, hfc);
      Spaced(s'.log) && Covered(s') && ClockOk(s') && RefreshOk(s', s'.tasks[t])
  {
  }

  lemma MarkKeepsPace(s: State, t: nat, ok: bool, hfc: Option<Hash>)
    requires t in s.tasks && s.tasks[t].Marking?
    requires GuardsOk(s) && Spaced(s.log) && Covered(s) && ClockOk(s)
    ensures var s' := Advance(s, t, s.tasks[t], ok, hfc);
      Spaced(s'.log) && Covered(s') && ClockOk(s') && RefreshOk(s', s'.tasks[t])
  {
  }

  lemma QuietKeepsPace(s: State, t: nat, ok: bool, hfc: Option<Hash>)
    requires t in s.tasks && !s.tasks[t].Publishing? && !s.tasks[t].Sending? && !s.tasks[t].Marking?
    requires GuardsOk(s) && Spaced(s.log) && Covered(s) && ClockOk(s) && RefreshOk(s, s.tasks[t])
    ensures var s' := Advance(s, t, s.tasks[t], ok, hfc);
      Spaced(s'.log) && Covered(s') && ClockOk(s') && RefreshOk(s', s'.tasks[t])
  {
    var s' := Advance(s, t, s.tasks[t], ok, hfc);
    assert GuardOk(s, t, s.tasks[t]);
    var p := AdvanceIsLocal(s, t, ok, hfc);
    assert s'.log == s.log && s'.lastParentAt == s.lastParentAt;
    if MarkPending(s) {
      assert s.permit.value != t;
      assert GuardOk(s, s.permit.value, s.tasks[s.permit.value]);
      assert MarkPending(s');
    }
  }

  lemma StepKeepsPace(s: State, a: Action)
    requires GuardsOk(s) && PaceOk(s)
    ensures PaceOk(Step(s, a))
  {
    var s' := Step(s, a);
    if a.Go? && a.t in s.tasks {
      assert RefreshOk(s, s.tasks[a.t]) && GuardOk(s, a.t, s.tasks[a.t]);
      var p := AdvanceIsLocal(s, a.t, a.ok, a.hfc);
      AdvanceKeepsPace(s, a.t, a.ok, a.hfc);
      forall u | u in s'.tasks ensures RefreshOk(s', s'.tasks[u]) {
        if u != a.t {
          assert RefreshOk(s, s.tasks[u]) && GuardOk(s, u, s.tasks[u]);
        }
      }
    } else {
      IdleKeepsPace(s, a);
    }
  }

  lemma IdleKeepsPace(s: State, a: Action)
    requires GuardsOk(s) && PaceOk(s) && !(a.Go? && a.t in s.tasks)
    ensures PaceOk(Step(s, a))
  {
    var s' := Step(s, a);
    forall u | u in s'.tasks ensures RefreshOk(s', s'.tasks[u]) {
      if u in s.tasks { assert RefreshOk(s, s.tasks[u]); }
    }
    assert MarkPending(s) ==> MarkPending(s');
  }

  // ---- Every run ---------------------------------------------------------------

  function After(run: seq<Action>): State {
    if run == [] then Init else Step(After(run[..|run| - 1]), run[|run| - 1])
  }

  /** Every refresh of the run was answered by an honest node. */
  predicate HonestNode(run: seq<Action>) {
    run == [] || (HonestNode(run[..|run| - 1]) && Honest(After(run[..|run| - 1]), run[|run| - 1]))
  }

  lemma {:induction false} CommitmentInvariant(run: seq<Action>)
    requires HonestNode(run)
    ensures CommitmentsOk(After(run))
  {
    if run != [] {
      var s := After(run[..|run| - 1]);
      RunInvariant(run[..|run| - 1]);
      CommitmentInvariant(run[..|run| - 1]);
      StepKeepsCommitments(s, run[|run| - 1]);
    }
  }

  lemma {:induction false} RunInvariant(run: seq<Action>)
    ensures GuardsOk(After(run)) && OrderOk(After(run)) && PaceOk(After(run))
  {
    if run != [] {
      var s := After(run[..|run| - 1]);
      RunInvariant(run[..|run| - 1]);
      StepKeepsGuards(s, run[|run| - 1]);
      StepKeepsOrder(s, run[|run| - 1]);
      StepKeepsPace(s, run[|run| - 1]);
    }
  }

  /** The action stores a refreshed carrier. */
  predicate Stores(s: State, a: Action) {
    a.Go? && a.ok && a.t in s.tasks && s.tasks[a.t].Adding?
  }

  /** Every carrier stored in the run commits to what the node had been asked for. */
  predicate CarriersKept(run: seq<Action>) {
    run == [] ||
    (CarriersKept(run[..|run| - 1])
     && var s, a := After(run[..|run| - 1]), run[|run| - 1];
        Stores(s, a) ==> s.tasks[a.t].carrier == s.tasks[a.t].expected)
  }

  lemma StepKeepsChainIff(s: State, a: Action)
    requires GuardsOk(s) && OrderOk(s)
    ensures ChainOk(Step(s, a).history)
       <==> ChainOk(s.history) && (Stores(s, a) ==> s.tasks[a.t].carrier == s.tasks[a.t].expected)
  {
    if a.Go? && a.t in s.tasks {
      assert HolderOk(s, s.tasks[a.t]) && GuardOk(s, a.t, s.tasks[a.t]);
      var h := Step(s, a).history;
      assert h == s.history || h[..|h| - 1] == s.history;
      AppendKeepsChainIff(s.history, h);
    }
  }

  lemma AppendKeepsChainIff(before: seq<Job>, after: seq<Job>)
    requires after == before || (after != [] && after[..|after| - 1] == before)
    ensures ChainOk(after)
       <==> && ChainOk(before)
            && (after != before && after[|after| - 1].kind == ParentOnly ==>
                  before != [] && after[|after| - 1].hfc == before[|before| - 1].hfc)
  {
    if after != before {
      assert forall i :: 0 <= i < |before| ==> after[i] == before[i];
    }
  }

  /** Over every run: each parent-only job in the stored history commits to the H_fc of the job right
      before it exactly when every refreshed carrier that was stored commits to what the node had
      been asked for. */
  lemma {:induction false} ChainKeptIff(run: seq<Action>)
    ensures ChainOk(After(run).history) <==> CarriersKept(run)
  {
    if run != [] {
      ChainKeptIff(run[..|run| - 1]);
      RunInvariant(run[..|run| - 1]);
      StepKeepsChainIff(After(run[..|run| - 1]), run[|run| - 1]);
    }
  }

  lemma Onward(run: seq<Action>, a: Action)
    ensures After(run + [a]) == Step(After(run), a)
  {
    assert (run + [a])[..|run|] == run;
  }

  /** One producer, advanced by the given actions. */
  lemma {:induction false} OnwardAll(run: seq<Action>, more: seq<Action>)
    ensures After(run + more) == Moved(After(run), more)
    decreases |more|
  {
    if more == [] {
      assert run + more == run;
    } else {
      Onward(run, more[0]);
      OnwardAll(run + [more[0]], more[1..]);
      assert run + [more[0]] + more[1..] == run + more;
    }
  }

  function Moved(s: State, more: seq<Action>): State
    decreases |more|
  {
    if more == [] then s else Moved(Step(s, more[0]), more[1..])
  }

  /** A node that answers a refresh with another commitment breaks the chain: after an immediate job on
      H_fc 1, a refresh answered with H_fc 2 is stored as a parent-only job on 2. */
  lemma DishonestNodeBreaksTheChain() returns (run: seq<Action>)
    ensures !ChainOk(After(run).history)
  {
    var job := [SpawnJob(0, true), Go(0, true, None), Go(0, true, Some(1)), Go(0, true, None)];
    var refresh := [SpawnRefresh(1, 0), Go(1, true, None), Go(1, true, None), Go(1, true, None), Go(1, true, None)];
    var store := [Go(1, true, Some(2)), Go(1, true, None), Go(1, true, None), Go(1, true, None)];
    run := [] + job + refresh + store;
    OnwardAll([], job);
    OnwardAll([] + job, refresh);
    OnwardAll([] + job + refresh, store);
    var s := ImmediateJob(job);
    var r := AsksTheNode(s, refresh);
    StoresTheAnswer(r, store);
  }

  lemma ImmediateJob(job: seq<Action>) returns (s: State)
    requires job == [SpawnJob(0, true), Go(0, true, None), Go(0, true, Some(1)), Go(0, true, None)]
    ensures s == Moved(Init, job)
    ensures s.history == [Job(Some(1), Immediate)] && s.tasks == map[0 := Done]
    ensures s.lock == None && s.permit == None && s.lastParentAt == None && s.now == 0
  {
    var s1 := Step(Init, job[0]);
    var s2 := Step(s1, job[1]);
    var s3 := Step(s2, job[2]);
    s := Step(s3, job[3]);
    MovedFour(Init, job, s1, s2, s3, s);
  }

  lemma MovedFour(s: State, more: seq<Action>, s1: State, s2: State, s3: State, s4: State)
    requires |more| == 4 && s1 == Step(s, more[0]) && s2 == Step(s1, more[1]) && s3 == Step(s2, more[2])
    requires s4 == Step(s3, more[3])
    ensures Moved(s, more) == s4
  {
    assert more[1..][1..] == more[2..] && more[2..][1..] == more[3..] && more[3..][1..] == [];
    assert Moved(s3, more[3..]) == s4;
    assert Moved(s2, more[2..]) == s4;
    assert Moved(s1, more[1..]) == s4;
  }

  lemma AsksTheNode(s: State, refresh: seq<Action>) returns (r: State)
    requires s.history == [Job(Some(1), Immediate)] && s.tasks == map[0 := Done]
    requires s.lock == None && s.permit == None && s.lastParentAt == None && s.now == 0
    requires |refresh| == 5 && refresh[0] == SpawnRefresh(1, 0)
    requires forall i :: 1 <= i < 5 ==> refresh[i] == Go(1, true, None)
    ensures r == Moved(s, refresh)
    ensures r.history == s.history && r.lock == None && 1 in r.tasks && r.tasks[1] == Refreshing(0, 0, Some(1))
  {
    var s1 := Step(s, refresh[0]);
    var s2 := Step(s1, refresh[1]);
    var s3 := Step(s2, refresh[2]);
    var s4 := Step(s3, refresh[3]);
    r := Step(s4, refresh[4]);
    MovedFour(s1, refresh[1..], s2, s3, s4, r);
  }

  lemma StoresTheAnswer(r: State, store: seq<Action>)
    requires r.history == [Job(Some(1), Immediate)] && r.lock == None
    requires 1 in r.tasks && r.tasks[1] == Refreshing(0, 0, Some(1))
    requires store == [Go(1, true, Some(2)), Go(1, true, None), Go(1, true, None), Go(1, true, None)]
    ensures !ChainOk(Moved(r, store).history)
  {
    var s1 := Step(r, store[0]);
    var s2 := Step(s1, store[1]);
    var s3 := Step(s2, store[2]);
    var s4 := Step(s3, store[3]);
    MovedFour(r, store, s1, s2, s3, s4);
    assert s4.history[1] == Job(Some(2), ParentOnly) && s4.history[0] == Job(Some(1), Immediate);
  }

  /** In every interleaving the ids sent to the miner strictly increase. */
  lemma NotifyIdsIncrease(run: seq<Action>, i: nat, j: nat)
    requires i < j < |After(run).log|
    ensures After(run).log[i].id < After(run).log[j].id
  {
    RunInvariant(run);
  }

  /** With an honest node, between two stored jobs that commit to different H_fc there is a full
      build: H_fc never changes through parent-only refreshes. */
  lemma {:induction false} CommitmentChangesOnlyAtTemplates(run: seq<Action>, i: nat, j: nat)
    requires HonestNode(run) && i < j < |After(run).history|
    requires After(run).history[i].hfc != After(run).history[j].hfc
    ensures exists k :: i < k <= j && After(run).history[k].kind != ParentOnly
    decreases j
  {
    CommitmentInvariant(run);
    var h := After(run).history;
    if h[j].kind == ParentOnly {
      assert i < j - 1;
      CommitmentChangesOnlyAtTemplates(run, i, j - 1);
    }
  }

  /** With an honest node every parent-only job that is published commits to the H_fc of the job
      right before it. */
  lemma ParentOnlyKeepsCommitment(run: seq<Action>, i: nat)
    requires HonestNode(run) && i < |After(run).log| && After(run).log[i].kind == ParentOnly
    ensures 2 <= After(run).log[i].id <= |After(run).history|
    ensures After(run).history[After(run).log[i].id - 1].hfc == After(run).history[After(run).log[i].id - 2].hfc
  {
    RunInvariant(run);
    CommitmentInvariant(run);
  }

  /** Two published parent-only jobs are at least the later one's minimum interval apart. */
  lemma ParentJobsAreSpaced(run: seq<Action>, i: nat, j: nat)
    requires i < j < |After(run).log|
    requires After(run).log[i].kind == ParentOnly && After(run).log[j].kind == ParentOnly
    ensures After(run).log[j].at - After(run).log[i].at >= After(run).log[j].minInterval
  {
    RunInvariant(run);
  }

  /** At most one parent refresh is in flight, and at most one task builds a job. */
  lemma OneRefreshInFlight(run: seq<Action>, t: nat, u: nat)
    requires t in After(run).tasks && u in After(run).tasks
    ensures HoldsPermit(After(run).tasks[t]) && HoldsPermit(After(run).tasks[u]) ==> t == u
    ensures HoldsLock(After(run).tasks[t]) && HoldsLock(After(run).tasks[u]) ==> t == u
  {
    RunInvariant(run);
  }
}
