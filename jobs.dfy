/**
 * The job state machine and the job collection of jobs.py.
 *
 * Job states are the strings the store holds. The transition table lists
 * keys of the form "from --> to", exactly as the source builds them.
 *
 * Two field names diverge in the source: `next` matches and sets a field
 * called 'status' while `put` reads 'state', and `put` stamps 'timestamp'
 * while `next` stamps 'modified'. This model uses one state field (`state`)
 * and one time field (`modified`) for both operations.
 */
module Jobs {
  import opened Wrappers

  const Pending: string := "pending"
  const Running: string := "running"
  const Failed: string := "failed"
  const Complete: string := "complete"

  /** Every state a job can be in. */
  const JobStates: seq<string> := [Pending, Running, Failed, Complete]

  /** The only states in which a job may still be changed by `Put`. */
  const MutableStates: seq<string> := [Pending, Running]

  /** The transition table, as "from --> to" keys. */
  const JobTransitions: seq<string> := ["pending --> running", "running --> failed", "running --> complete"]

  function TransitionKey(fromState: string, toState: string): (k: string)
  {
    fromState + " --> " + toState
  }

  /**
   * Table membership of the key built from both states. The source writes
   * `tosState` for the second operand, an undefined name; the parameter
   * `toState` is what is evidently meant.
   */
  predicate ValidTransition(fromState: string, toState: string)
  {
    TransitionKey(fromState, toState) in JobTransitions
  }

  predicate IsMutable(state: string)
  {
    state in MutableStates
  }

  predicate IsTerminal(state: string)
  {
    state == Failed || state == Complete
  }

  /** A key built from two space-free state names determines both names. */
  lemma KeyInjective(f: string, t: string, a: string, b: string)
    requires ' ' !in a && ' ' !in b
    requires TransitionKey(f, t) == TransitionKey(a, b)
    ensures f == a && t == b
  {
    var s := TransitionKey(a, b);
    var k := |f|;
    assert s[k] == ' ' && s[k + 4] == ' ' by {
      assert TransitionKey(f, t)[k] == ' ' && TransitionKey(f, t)[k + 4] == ' ';
    }
    assert k == |a|;
    assert f == s[..k];
    assert t == s[k + 5..];
  }

  /** The table admits exactly three edges, whatever strings are passed in. */
  lemma TransitionEdges(fromState: string, toState: string)
    ensures ValidTransition(fromState, toState) <==>
      (fromState == Pending && toState == Running) ||
      (fromState == Running && toState == Failed) ||
      (fromState == Running && toState == Complete)
  {
    assert TransitionKey(Pending, Running) == JobTransitions[0];
    assert TransitionKey(Running, Failed) == JobTransitions[1];
    assert TransitionKey(Running, Complete) == JobTransitions[2];
    var key := TransitionKey(fromState, toState);
    if key == JobTransitions[0] {
      KeyInjective(fromState, toState, Pending, Running);
    } else if key == JobTransitions[1] {
      KeyInjective(fromState, toState, Running, Failed);
    } else if key == JobTransitions[2] {
      KeyInjective(fromState, toState, Running, Complete);
    }
  }

  /**
   * Consequences of the table: no self-transition, nothing out of a terminal
   * state, and every edge starts in a mutable state and joins two known states.
   */
  lemma ValidTransitionExactly(fromState: string, toState: string)
    ensures ValidTransition(fromState, toState) <==>
      (fromState == Pending && toState == Running) ||
      (fromState == Running && toState == Failed) ||
      (fromState == Running && toState == Complete)
    ensures !ValidTransition(fromState, fromState)
    ensures IsTerminal(fromState) ==> !ValidTransition(fromState, toState)
    ensures ValidTransition(fromState, toState) ==>
      IsMutable(fromState) && fromState in JobStates && toState in JobStates
  {
    TransitionEdges(fromState, toState);
    TransitionEdges(fromState, fromState);
  }

  /** The mutability gate admits exactly the two non-terminal states. */
  lemma MutableExactly(state: string)
    ensures IsMutable(state) <==> state == Pending || state == Running
    ensures IsTerminal(state) ==> !IsMutable(state)
  {
  }

  /** A field value of a job document; the core never interprets it. */
  datatype Value = Str(s: string) | Num(n: int) | Flag(b: bool) | Null

  /**
   * A job document: its state, its last modification time and its other
   * fields. `data` never holds the keys "state" or "modified": those two
   * fields of the document are `state` and `modified`.
   */
  datatype Job = Job(state: string, modified: int, data: map<string, Value>)

  /**
   * A partial update: an optional new state and the other fields to merge;
   * as in `Job`, a requested state is `state`, never a key of `data`.
   */
  datatype Mutation = Mutation(state: Option<string>, data: map<string, Value>)

  /** The reasons `Put` rejects a mutation. */
  datatype PutError =
    | NotFound(id: int)
    | NotMutable(state: string)
    | TransitionNotAllowed(fromState: string, toState: string)

  /** A job handed out by `Next`, with its id. */
  datatype Claim = Claim(id: int, job: Job)

  predicate HasPending(jobs: map<int, Job>)
  {
    exists id :: id in jobs && jobs[id].state == Pending
  }

  /** `id` is pending and no pending job was modified later. */
  predicate IsNewestPending(jobs: map<int, Job>, id: int)
  {
    id in jobs && jobs[id].state == Pending &&
    forall k :: k in jobs && jobs[k].state == Pending ==> jobs[k].modified <= jobs[id].modified
  }

  /** Among the pending jobs whose ids are in `ids`, one was modified last. */
  lemma {:induction false} NewestPendingIn(jobs: map<int, Job>, ids: set<int>, some: int)
    requires ids <= jobs.Keys && some in ids && jobs[some].state == Pending
    ensures exists best :: (best in ids && jobs[best].state == Pending &&
      forall k :: k in ids && jobs[k].state == Pending ==> jobs[k].modified <= jobs[best].modified)
    decreases ids
  {
    var rest := ids - {some};
    if other :| other in rest && jobs[other].state == Pending {
      NewestPendingIn(jobs, rest, other);
      var best :| best in rest && jobs[best].state == Pending &&
        forall k :: k in rest && jobs[k].state == Pending ==> jobs[k].modified <= jobs[best].modified;
      if jobs[some].modified > jobs[best].modified {
        best := some;
      }
      assert best in ids && jobs[best].state == Pending &&
        forall k :: k in ids && jobs[k].state == Pending ==> jobs[k].modified <= jobs[best].modified;
    } else {
      assert forall k :: k in ids && jobs[k].state == Pending ==> k == some;
    }
  }

  /** Whenever some job is pending, a newest pending job exists. */
  lemma NewestPendingExists(jobs: map<int, Job>)
    requires HasPending(jobs)
    ensures exists id :: IsNewestPending(jobs, id)
  {
    var some :| some in jobs && jobs[some].state == Pending;
    NewestPendingIn(jobs, jobs.Keys, some);
    var best :| best in jobs.Keys && jobs[best].state == Pending &&
      forall k :: k in jobs.Keys && jobs[k].state == Pending ==> jobs[k].modified <= jobs[best].modified;
    assert IsNewestPending(jobs, best);
  }

  /** The store after `Next` claims `id`: that job is running and stamped, the rest untouched. */
  function Claimed(jobs: map<int, Job>, id: int, now: int): (r: map<int, Job>)
    requires id in jobs
    ensures r.Keys == jobs.Keys
    ensures r[id].state == Running && r[id].modified == now && r[id].data == jobs[id].data
    ensures forall k :: k in jobs && k != id ==> r[k] == jobs[k]
  {
    jobs[id := jobs[id].(state := Running, modified := now)]
  }

  /**
   * The job after an accepted mutation: every supplied field overrides the
   * stored one, the rest are kept, and the modification time is `now`.
   */
  function Merged(job: Job, m: Mutation, now: int): (r: Job)
    ensures r.modified == now
    ensures r.state == (if m.state.Some? then m.state.value else job.state)
    ensures r.data.Keys == job.data.Keys + m.data.Keys
    ensures forall key :: key in m.data ==> r.data[key] == m.data[key]
    ensures forall key :: key in job.data && key !in m.data ==> r.data[key] == job.data[key]
  {
    var state := if m.state.Some? then m.state.value else job.state;
    Job(state, now, job.data + m.data)
  }

  /**
   * The checks `Put` makes before writing, in the source's order: the job
   * must exist, must be in a mutable state, and a requested state must be a
   * valid transition from the STORED state. None means the mutation passes.
   */
  function PutCheck(jobs: map<int, Job>, id: int, m: Mutation): (r: Option<PutError>)
    ensures r == Some(NotFound(id)) <==> id !in jobs
    ensures r.None? <==>
      id in jobs && IsMutable(jobs[id].state) &&
      (m.state.None? || ValidTransition(jobs[id].state, m.state.value))
    ensures id in jobs && !IsMutable(jobs[id].state) ==> r == Some(NotMutable(jobs[id].state))
    ensures (id in jobs && IsMutable(jobs[id].state) && m.state.Some? &&
      !ValidTransition(jobs[id].state, m.state.value)) ==>
      r == Some(TransitionNotAllowed(jobs[id].state, m.state.value))
  {
    if id !in jobs then Some(NotFound(id))
    else if !IsMutable(jobs[id].state) then Some(NotMutable(jobs[id].state))
    else if m.state.Some? && !ValidTransition(jobs[id].state, m.state.value) then
      Some(TransitionNotAllowed(jobs[id].state, m.state.value))
    else None
  }

  /** The store after `Put(id, m)` at time `now`: merged if accepted, unchanged otherwise. */
  function AfterPut(jobs: map<int, Job>, id: int, m: Mutation, now: int): (r: map<int, Job>)
    ensures r.Keys == jobs.Keys
    ensures PutCheck(jobs, id, m).Some? ==> r == jobs
    ensures PutCheck(jobs, id, m).None? ==> r[id] == Merged(jobs[id], m, now)
    ensures forall k :: k in jobs && k != id ==> r[k] == jobs[k]
  {
    if PutCheck(jobs, id, m).None? then jobs[id := Merged(jobs[id], m, now)] else jobs
  }

  /** One call of the collection's operations, with the time the call observed. */
  datatype Op = ClaimOp(id: int, now: int) | NoWork | PutOp(id: int, m: Mutation, now: int)

  /** `after` is what one call `op` of `Next` or `Put` can leave behind from `before`. */
  ghost predicate Step(before: map<int, Job>, op: Op, after: map<int, Job>)
  {
    match op
    case ClaimOp(id, now) => IsNewestPending(before, id) && after == Claimed(before, id, now)
    case NoWork => !HasPending(before) && after == before
    case PutOp(id, m, now) => after == AfterPut(before, id, m, now)
  }

  /**
   * One call never adds or removes a job, and moves a job's state only along
   * an edge of the table; a job in a terminal state is left exactly as it was.
   */
  lemma StepMovesForward(before: map<int, Job>, op: Op, after: map<int, Job>, id: int)
    requires Step(before, op, after) && id in before
    ensures after.Keys == before.Keys
    ensures after[id].state == before[id].state || ValidTransition(before[id].state, after[id].state)
    ensures !IsMutable(before[id].state) ==> after[id] == before[id]
  {
    match op
    case ClaimOp(claimed, now) =>
      if claimed == id {
        ValidTransitionExactly(Pending, Running);
      }
    case NoWork =>
    case PutOp(target, m, now) =>
  }

  /** Over any run of calls, a job in a failed or complete state is never changed again. */
  lemma {:induction false} TerminalJobsFrozen(trace: seq<map<int, Job>>, ops: seq<Op>, id: int)
    requires |trace| == |ops| + 1
    requires forall i :: 0 <= i < |ops| ==> Step(trace[i], ops[i], trace[i + 1])
    requires id in trace[0] && IsTerminal(trace[0][id].state)
    ensures forall j :: 0 <= j < |trace| ==> id in trace[j] && trace[j][id] == trace[0][id]
  {
    if |ops| > 0 {
      TerminalJobsFrozen(trace[..|ops|], ops[..|ops| - 1], id);
      var last := |ops| - 1;
      assert Step(trace[last], ops[last], trace[last + 1]);
      StepMovesForward(trace[last], ops[last], trace[last + 1], id);
    }
  }

  /** The call observed a time no earlier than any stamp in the store (a clock that never goes back). */
  predicate ClockNotBehind(jobs: map<int, Job>, op: Op)
  {
    op.NoWork? || forall k :: k in jobs ==> jobs[k].modified <= op.now
  }

  /** With a clock that never goes back, one call never lowers a job's `modified`. */
  lemma StepKeepsModifiedOrder(before: map<int, Job>, op: Op, after: map<int, Job>, id: int)
    requires Step(before, op, after) && id in before && ClockNotBehind(before, op)
    ensures id in after && before[id].modified <= after[id].modified
  {
    StepMovesForward(before, op, after, id);
  }

  /** Claiming a job at a time later than its stamp strictly advances the stamp. */
  lemma ClaimAdvancesModified(jobs: map<int, Job>, id: int, now: int)
    requires id in jobs && jobs[id].modified < now
    ensures jobs[id].modified < Claimed(jobs, id, now)[id].modified
  {
  }

  /** Over any run of calls with a clock that never goes back, a job's `modified` never decreases. */
  lemma {:induction false} ModifiedNeverDecreases(trace: seq<map<int, Job>>, ops: seq<Op>, id: int)
    requires |trace| == |ops| + 1
    requires forall i :: 0 <= i < |ops| ==> Step(trace[i], ops[i], trace[i + 1])
    requires forall i :: 0 <= i < |ops| ==> ClockNotBehind(trace[i], ops[i])
    requires id in trace[0]
    ensures forall j :: 0 <= j < |trace| ==> id in trace[j] && trace[0][id].modified <= trace[j][id].modified
  {
    if |ops| > 0 {
      ModifiedNeverDecreases(trace[..|ops|], ops[..|ops| - 1], id);
      var last := |ops| - 1;
      assert Step(trace[last], ops[last], trace[last + 1]) && ClockNotBehind(trace[last], ops[last]);
      StepKeepsModifiedOrder(trace[last], ops[last], trace[last + 1], id);
    }
  }

  /** Claiming the only pending job leaves nothing to claim: a second `Next` finds no work. */
  lemma ClaimedOnce(jobs: map<int, Job>, id: int, now: int)
    requires IsNewestPending(jobs, id)
    requires forall k :: k in jobs && jobs[k].state == Pending ==> k == id
    ensures !HasPending(Claimed(jobs, id, now))
  {
  }

  /**
   * One job's life: claimed, completed with a result, and then refused any
   * further change; completing a pending job directly is refused too.
   */
  lemma JobLifecycle(created: int, claimedAt: int, doneAt: int, laterAt: int)
    ensures var jobs := map[1 := Job(Pending, created, map[])];
      var running := Claimed(jobs, 1, claimedAt);
      var finish := Mutation(Some(Complete), map["result" := Str("ok")]);
      var done := AfterPut(running, 1, finish, doneAt);
      PutCheck(jobs, 1, finish) == Some(TransitionNotAllowed(Pending, Complete)) &&
      IsNewestPending(jobs, 1) &&
      running[1].state == Running && running[1].modified == claimedAt &&
      PutCheck(running, 1, finish).None? &&
      done[1] == Job(Complete, doneAt, map["result" := Str("ok")]) &&
      PutCheck(done, 1, Mutation(Some(Failed), map[])) == Some(NotMutable(Complete))
  {
    TransitionEdges(Pending, Complete);
    TransitionEdges(Running, Complete);
  }

  /** The job collection: job documents keyed by their integer `_id`. */
  class JobStore {
    var jobs: map<int, Job>

    constructor (initial: map<int, Job>)
      ensures jobs == initial
    {
      jobs := initial;
    }

    /** The number of job documents. */
    function Count(): (n: nat)
      reads this
      ensures n == |jobs.Keys|
    {
      |jobs|
    }

    /** The job with this id, or None when the store has none. */
    function Get(id: int): (r: Option<Job>)
      reads this
      ensures r.Some? <==> id in jobs
      ensures r.Some? ==> r.value == jobs[id]
    {
      if id in jobs then Some(jobs[id]) else None
    }

    /**
     * Atomically claim the pending job modified last: set it running and
     * stamp it with `now`. With no pending job, return None and change nothing.
     * Ties between equally recent jobs are resolved by the store, in no
     * specified order.
     */
    method Next(now: int) returns (r: Option<Claim>)
      modifies this
      ensures r.None? <==> !HasPending(old(jobs))
      ensures r.None? ==> jobs == old(jobs)
      ensures r.Some? ==>
        IsNewestPending(old(jobs), r.value.id) &&
        jobs == Claimed(old(jobs), r.value.id, now) &&
        r.value.job == jobs[r.value.id]
      ensures Step(old(jobs), if r.Some? then ClaimOp(r.value.id, now) else NoWork, jobs)
    {
      if HasPending(jobs) {
        NewestPendingExists(jobs);
        var id :| IsNewestPending(jobs, id);
        jobs := Claimed(jobs, id, now);
        r := Some(Claim(id, jobs[id]));
      } else {
        r := None;
      }
    }

    /**
     * Apply a mutation to job `id` at time `now`. Rejected, with the store
     * unchanged, when the job is missing, is not pending or running, or the
     * mutation names a state that is not a valid transition from the stored
     * one; otherwise every supplied field is merged and the time stamped.
     */
    method Put(id: int, m: Mutation, now: int) returns (r: Option<PutError>)
      modifies this
      ensures r == PutCheck(old(jobs), id, m)
      ensures jobs == AfterPut(old(jobs), id, m, now)
      ensures Step(old(jobs), PutOp(id, m, now), jobs)
    {
      var job := Get(id);
      if job.None? {
        return Some(NotFound(id));
      }
      var stored := job.value;
      if !IsMutable(stored.state) {
        return Some(NotMutable(stored.state));
      }
      if m.state.Some? && !ValidTransition(stored.state, m.state.value) {
        return Some(TransitionNotAllowed(stored.state, m.state.value));
      }
      jobs := jobs[id := Merged(stored, m, now)];
      r := None;
    }
  }
}
