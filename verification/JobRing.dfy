/** The per-connection job ring (mining_state.rs).

    The ring is proved against the unbounded list of everything ever published: 300 slots
    overwritten in place answer exactly like that list restricted to its last 300 entries. */
module JobRing {
  import opened Options

  const MAX_JOBS: nat := 300

  /** A published job and the stratum difficulty held when it was added. */
  datatype Published<J, D> = Published(job: J, diff: Option<D>)

  /** Job ids start at 1; the last MAX_JOBS of them are retained. */
  predicate Retained(id: nat, count: nat) {
    1 <= id <= count && count < id + MAX_JOBS
  }

  function Lookup<J, D>(history: seq<Published<J, D>>, id: nat): Option<Published<J, D>> {
    if Retained(id, |history|) then Some(history[id - 1]) else None
  }

  /** The retained id living in a slot, for `count >= MAX_JOBS` or a slot already used. */
  lemma RetainedStep(id: nat, count: nat)
    ensures Retained(id, count + 1)
       <==> id == count + 1 || (Retained(id, count) && id % MAX_JOBS != (count + 1) % MAX_JOBS)
  {
  }

  /** The three slot tables hold exactly the retained part of the history. */
  ghost predicate Refines<J, D>(jobs: map<nat, J>, ids: map<nat, nat>, diffs: map<nat, D>,
                                history: seq<Published<J, D>>)
  {
    && jobs.Keys == ids.Keys
    && (forall id: nat :: Retained(id, |history|) ==> id % MAX_JOBS in ids && ids[id % MAX_JOBS] == id)
    && (forall slot: nat :: slot in ids ==> SlotOk(jobs, ids, diffs, history, slot))
    && (forall slot :: slot in diffs ==> slot in ids)
  }

  ghost predicate SlotOk<J, D>(jobs: map<nat, J>, ids: map<nat, nat>, diffs: map<nat, D>,
                               history: seq<Published<J, D>>, slot: nat)
    requires slot in ids
  {
    var id := ids[slot];
    && Retained(id, |history|) && id % MAX_JOBS == slot
    && slot in jobs && jobs[slot] == history[id - 1].job
    && (if slot in diffs then Some(diffs[slot]) else None) == history[id - 1].diff
  }

  function PutDiff<D>(diffs: map<nat, D>, slot: nat, diff: Option<D>): map<nat, D> {
    match diff
    case Some(d) => diffs[slot := d]
    case None => diffs - {slot}
  }

  /** Overwriting one slot appends to the history. */
  lemma AppendRefines<J, D>(jobs: map<nat, J>, ids: map<nat, nat>, diffs: map<nat, D>, history: seq<Published<J, D>>,
                            job: J, diff: Option<D>)
    requires Refines(jobs, ids, diffs, history)
    ensures var id := |history| + 1; var slot := id % MAX_JOBS;
      Refines(jobs[slot := job], ids[slot := id], PutDiff(diffs, slot, diff), history + [Published(job, diff)])
  {
    var id := |history| + 1;
    var slot := id % MAX_JOBS;
    var jobs', ids' := jobs[slot := job], ids[slot := id];
    var diffs', history' := PutDiff(diffs, slot, diff), history + [Published(job, diff)];
    forall k: nat | Retained(k, |history'|) ensures k % MAX_JOBS in ids' && ids'[k % MAX_JOBS] == k {
      RetainedStep(k, |history|);
    }
    forall s: nat | s in ids' ensures SlotOk(jobs', ids', diffs', history', s) {
      if s != slot {
        assert SlotOk(jobs, ids, diffs, history, s);
        RetainedStep(ids[s], |history|);
      }
    }
  }

  class MiningState<J, D> {
    var jobs: map<nat, J>          // slot -> job
    var jobIds: map<nat, nat>      // slot -> id
    var jobDiffs: map<nat, D>      // slot -> difficulty at publication
    var jobCounter: nat
    var stratumDiff: Option<D>
    ghost var history: seq<Published<J, D>>

    ghost predicate Valid()
      reads this
    {
      jobCounter == |history| && Refines(jobs, jobIds, jobDiffs, history)
    }

    constructor ()
      ensures Valid() && history == [] && stratumDiff == None
    {
      jobs, jobIds, jobDiffs, jobCounter, stratumDiff, history := map[], map[], map[], 0, None, [];
    }

    method SetStratumDiff(d: D)
      requires Valid()
      modifies this`stratumDiff
      ensures Valid() && stratumDiff == Some(d)
    {
      stratumDiff := Some(d);
    }

    /** The new job gets the next id and carries the difficulty held at this moment. */
    method AddJob(job: J) returns (id: nat)
      requires Valid()
      modifies this
      ensures Valid() && stratumDiff == old(stratumDiff)
      ensures history == old(history) + [Published(job, stratumDiff)]
      ensures id == |history|
    {
      jobCounter := jobCounter + 1;
      id := jobCounter;
      var slot := id % MAX_JOBS;
      jobs := jobs[slot := job];
      jobIds := jobIds[slot := id];
      match stratumDiff {
        case Some(d) => jobDiffs := jobDiffs[slot := d];
        case None => jobDiffs := jobDiffs - {slot};
      }
      AppendRefines(old(jobs), old(jobIds), old(jobDiffs), old(history), job, stratumDiff);
      history := history + [Published(job, stratumDiff)];
    }

    /** Exactly the job added under `id`, while it is among the last 300; an expired id never
        aliases the newer job in its slot. */
    method GetJob(id: nat) returns (r: Option<J>)
      requires Valid()
      ensures r == match Lookup(history, id) case Some(p) => Some(p.job) case None => None
    {
      var slot := id % MAX_JOBS;
      if slot !in jobIds || jobIds[slot] != id {
        return None;
      }
      assert SlotOk(jobs, jobIds, jobDiffs, history, slot);
      return Some(jobs[slot]);
    }

    /** The difficulty held when exactly this job was added. */
    method GetJobDiff(id: nat) returns (r: Option<D>)
      requires Valid()
      ensures r == match Lookup(history, id) case Some(p) => p.diff case None => None
    {
      var slot := id % MAX_JOBS;
      if slot !in jobIds || jobIds[slot] != id {
        return None;
      }
      assert SlotOk(jobs, jobIds, jobDiffs, history, slot);
      r := if slot in jobDiffs then Some(jobDiffs[slot]) else None;
    }

    /** The last job added: the maximum of the stored ids, looked up exactly. */
    method LatestJob() returns (r: Option<(nat, J)>)
      requires Valid()
      ensures r == if history == [] then None else Some((|history|, history[|history| - 1].job))
    {
      var rest := jobIds.Keys;
      var best := 0;
      ghost var seen: set<nat> := {};
      while rest != {}
        invariant rest + seen == jobIds.Keys
        invariant forall slot :: slot in seen ==> jobIds[slot] <= best
        invariant best == 0 || exists slot :: slot in seen && jobIds[slot] == best
        decreases rest
      {
        var slot :| slot in rest;
        assert SlotOk(jobs, jobIds, jobDiffs, history, slot);
        if jobIds[slot] > best { best := jobIds[slot]; }
        rest, seen := rest - {slot}, seen + {slot};
      }
      if history != [] {
        assert Retained(jobCounter, jobCounter);
        assert jobIds[jobCounter % MAX_JOBS] == jobCounter;
      }
      if best > 0 {
        ghost var slot :| slot in seen && jobIds[slot] == best;
        assert SlotOk(jobs, jobIds, jobDiffs, history, slot);
      }
      if best == 0 {
        return None;
      }
      var job := GetJob(best);
      assert job.Some?;
      r := Some((best, job.value));
    }
  }
}
