/** The backward job search of `handle_submit` (share_handler.rs): firmware that reports a
    nearby job number still gets its share matched, within a bounded number of PoW checks. */
module CompatSearch {
  import opened Options
  import opened JobRing

  const MAX_COMPAT_JOB_ATTEMPTS: nat := 8

  /** What one PoW evaluation of the nonce against one job yields. `mergedTarget` is the ZKas
      target of a merged parent, `checkPassed` the parent's own target check. */
  datatype Eval = Eval(powValue: nat, checkPassed: bool, mergedTarget: Option<nat>, bitsTarget: nat) {
    /** The share enters the block branch. */
    predicate NetworkHit() {
      powValue <= mergedTarget.GetOr(bitsTarget) || (mergedTarget.Some? && checkPassed)
    }
  }

  /** `id` is the job the submission is finally attributed to, `diff` the difficulty it is
      judged and credited with, `evals` the number of PoW evaluations spent. */
  datatype Verdict<D> =
    | MissingJob
    | NetworkSolution(id: nat, diff: Option<D>, evals: nat)
    | ShareCredited(id: nat, diff: Option<D>, evals: nat)
    | LowDifficulty(evals: nat)

  /** The difficulty recorded when the job was published, else the connection's current one. */
  function JobDiff<J, D>(history: seq<Published<J, D>>, current: Option<D>, id: nat): Option<D> {
    match Lookup(history, id)
    case Some(p) => if p.diff.Some? then p.diff else current
    case None => current
  }

  function PoolTarget<D>(diff: Option<D>, target: D -> nat): nat {
    match diff
    case Some(d) => target(d)
    case None => 0
  }

  /** The job the search starts from: the submitted one while retained, else the newest. */
  function StartId<J, D>(history: seq<Published<J, D>>, submitted: nat): nat {
    if Retained(submitted, |history|) then submitted else |history|
  }

  /** The ids the search may look at: at most eight, contiguous, all still retained. */
  predicate InWindow(count: nat, start: nat, id: nat) {
    id <= start < id + MAX_COMPAT_JOB_ATTEMPTS && Retained(id, count)
  }

  function EvalOf<J, D>(history: seq<Published<J, D>>, id: nat, eval: J -> Eval): Eval
    requires Retained(id, |history|)
  {
    eval(history[id - 1].job)
  }

  predicate MeetsPool<J, D>(history: seq<Published<J, D>>, current: Option<D>, id: nat, eval: J -> Eval,
                            target: D -> nat)
    requires Retained(id, |history|)
  {
    EvalOf(history, id, eval).powValue <= PoolTarget(JobDiff(history, current, id), target)
  }

  /** The nonce is worth nothing on job `id`: neither a block nor a share. */
  predicate Worthless<J, D>(history: seq<Published<J, D>>, current: Option<D>, id: nat, eval: J -> Eval,
                            target: D -> nat)
    requires Retained(id, |history|)
  {
    !EvalOf(history, id, eval).NetworkHit() && !MeetsPool(history, current, id, eval, target)
  }

  /** Job `id` is in the window and every newer job of the window is worthless. */
  ghost predicate NewestAt<J, D>(history: seq<Published<J, D>>, current: Option<D>, start: nat, id: nat,
                                 eval: J -> Eval, target: D -> nat)
  {
    && InWindow(|history|, start, id)
    && forall k: nat :: id < k <= start ==> Retained(k, |history|) && Worthless(history, current, k, eval, target)
  }

  /** The window ends after `evals` jobs and all of them are worthless. */
  ghost predicate Exhausted<J, D>(history: seq<Published<J, D>>, current: Option<D>, start: nat, evals: nat,
                                  eval: J -> Eval, target: D -> nat)
  {
    && 1 <= evals <= start
    && NewestAt(history, current, start, start - evals + 1, eval, target)
    && Worthless(history, current, start - evals + 1, eval, target)
    && !InWindow(|history|, start, start - evals)
  }

  ghost predicate VerdictOk<J, D>(v: Verdict<D>, history: seq<Published<J, D>>, current: Option<D>, submitted: nat,
                                  eval: J -> Eval, target: D -> nat)
  {
    var start := StartId(history, submitted);
    match v
    case MissingJob => history == []
    case NetworkSolution(id, diff, evals) =>
      && NewestAt(history, current, start, id, eval, target)
      && EvalOf(history, id, eval).NetworkHit()
      && diff == JobDiff(history, current, id) && evals == start - id + 1
    case ShareCredited(id, diff, evals) =>
      && NewestAt(history, current, start, id, eval, target)
      && !EvalOf(history, id, eval).NetworkHit()
      && MeetsPool(history, current, id, eval, target)
      && diff == JobDiff(history, current, id) && evals == start - id + 1
    case LowDifficulty(evals) => Exhausted(history, current, start, evals, eval, target)
  }

  /** The wrap-around test of the loop cannot fire within eight steps of a 300-slot ring. */
  lemma NoWrapWithinWindow(currentId: nat, jobId: nat)
    requires currentId <= jobId < currentId + MAX_COMPAT_JOB_ATTEMPTS
    ensures currentId % MAX_JOBS != (jobId % MAX_JOBS + 1) % MAX_JOBS
  {
    var gap := jobId - currentId;
    assert jobId == MAX_JOBS * (jobId / MAX_JOBS) + jobId % MAX_JOBS;
    assert currentId == MAX_JOBS * (currentId / MAX_JOBS) + currentId % MAX_JOBS;
  }

  lemma OneJobFurther<J, D>(history: seq<Published<J, D>>, current: Option<D>, start: nat, id: nat, eval: J -> Eval,
                            target: D -> nat)
    requires NewestAt(history, current, start, id, eval, target) && Worthless(history, current, id, eval, target)
    requires id > 0
    ensures InWindow(|history|, start, id - 1) ==> NewestAt(history, current, start, id - 1, eval, target)
    ensures !InWindow(|history|, start, id - 1) ==> Exhausted(history, current, start, start - id + 1, eval, target)
  {
  }

  /** One look at the ring for one job: the difficulty the nonce is judged with. */
  method DiffFor<J, D>(state: MiningState<J, D>, id: nat) returns (diff: Option<D>)
    requires state.Valid()
    ensures diff == JobDiff(state.history, state.stratumDiff, id)
  {
    diff := state.GetJobDiff(id);
    if diff.None? { diff := state.stratumDiff; }
  }

  /** The job to start from: the submitted one, or the newest stored one when it is gone. */
  method StartJob<J, D>(state: MiningState<J, D>, submitted: nat) returns (r: Option<(nat, J)>)
    requires state.Valid()
    ensures r.None? <==> state.history == []
    ensures r.Some? ==>
              && r.value.0 == StartId(state.history, submitted) && Retained(r.value.0, |state.history|)
              && r.value.1 == state.history[r.value.0 - 1].job
  {
    var found := state.GetJob(submitted);
    if found.Some? {
      return Some((submitted, found.value));
    }
    r := state.LatestJob();
  }

  /** The search loop of `handle_submit`. */
  method WalkBack<J, D>(state: MiningState<J, D>, jobId: nat, job: J, eval: J -> Eval, target: D -> nat)
    returns (v: Verdict<D>)
    requires state.Valid() && Retained(jobId, |state.history|) && job == state.history[jobId - 1].job
    ensures VerdictOk(v, state.history, state.stratumDiff, jobId, eval, target)
  {
    ghost var history, current := state.history, state.stratumDiff;
    var currentId: nat, currentJob := jobId, job;
    var invalidShare, attempts, evals := false, 0, 0;
    v := MissingJob;
    while true
      invariant Retained(currentId, |history|) && currentJob == history[currentId - 1].job
      invariant currentId + attempts == jobId && evals == attempts < MAX_COMPAT_JOB_ATTEMPTS
      invariant invalidShare <==> attempts > 0
      invariant NewestAt(history, current, jobId, currentId, eval, target)
      decreases currentId
    {
      var e := eval(currentJob);
      evals := evals + 1;
      var jobDiff := DiffFor(state, currentId);
      if e.NetworkHit() {
        invalidShare, v := false, NetworkSolution(currentId, jobDiff, evals);
        break;
      }
      if e.powValue <= PoolTarget(jobDiff, target) {
        invalidShare, v := false, ShareCredited(currentId, jobDiff, evals);
        break;
      }
      if currentId == jobId { invalidShare := true; }
      NoWrapWithinWindow(currentId, jobId);
      OneJobFurther(history, current, jobId, currentId, eval, target);
      if currentId == 1 || currentId % MAX_JOBS == (jobId % MAX_JOBS + 1) % MAX_JOBS {
        break;
      }
      attempts := attempts + 1;
      if attempts >= MAX_COMPAT_JOB_ATTEMPTS {
        break;
      }
      var previous := state.GetJob(currentId - 1);
      if previous.None? {
        break;
      }
      currentId, currentJob := currentId - 1, previous.value;
    }
    if invalidShare {
      v := LowDifficulty(evals);
    }
  }

  /** From the submitted id to the verdict. */
  method Search<J, D>(state: MiningState<J, D>, submitted: nat, eval: J -> Eval, target: D -> nat)
    returns (v: Verdict<D>)
    requires state.Valid()
    ensures VerdictOk(v, state.history, state.stratumDiff, submitted, eval, target)
  {
    var start := StartJob(state, submitted);
    if start.None? {
      return MissingJob;
    }
    v := WalkBack(state, start.value.0, start.value.1, eval, target);
  }

  /** What the verdict means when no job of the window reaches a network target: the newest job
      of {start, start-1, ..., start-7} still retained whose target the nonce meets is credited,
      the submission is low-difficulty iff there is none, and at most eight hashes are spent. */
  lemma NewestMatchingJobIsCredited<J, D>(v: Verdict<D>, history: seq<Published<J, D>>, current: Option<D>,
                                          submitted: nat, eval: J -> Eval, target: D -> nat)
    requires VerdictOk(v, history, current, submitted, eval, target) && history != []
    requires forall id: nat :: InWindow(|history|, StartId(history, submitted), id) ==>
             !EvalOf(history, id, eval).NetworkHit()
    ensures v.LowDifficulty? <==>
              forall id: nat :: InWindow(|history|, StartId(history, submitted), id) ==>
                !MeetsPool(history, current, id, eval, target)
    ensures v.ShareCredited? ==>
              && InWindow(|history|, StartId(history, submitted), v.id)
              && MeetsPool(history, current, v.id, eval, target)
              && forall id: nat :: v.id < id && InWindow(|history|, StartId(history, submitted), id) ==>
                   !MeetsPool(history, current, id, eval, target)
    ensures v.LowDifficulty? || v.ShareCredited?
    ensures 1 <= v.evals <= MAX_COMPAT_JOB_ATTEMPTS
  {
    var start := StartId(history, submitted);
    if v.LowDifficulty? {
      forall id: nat | InWindow(|history|, start, id) ensures !MeetsPool(history, current, id, eval, target) {
        if id >= start - v.evals + 1 { assert Worthless(history, current, id, eval, target); }
      }
    }
    if v.ShareCredited? {
      assert forall id: nat :: v.id < id <= start ==> Worthless(history, current, id, eval, target);
    }
  }
}
