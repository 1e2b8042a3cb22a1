/**
 The scheduler's poll thread and its workers, meeting at the `running` flag and
 the `next_run_at` column of each job.

 The rows are changed by four statements, modelled on maps. Between any two of
 them any other thread may act, so the protocol is a state machine whose steps
 are those statements.
 */
module CronRunner {
  import opened CronSchedule

  datatype Job = Job(nextRunAt: int, running: bool, lastOk: bool)

  type Jobs = map<int, Job>

  // ── The statements ──

  function Mark(jobs: Jobs, id: int, running: bool): Jobs {
    if id in jobs then jobs[id := jobs[id].(running := running)] else jobs
  }

  function Record(jobs: Jobs, id: int, ok: bool, next: int): Jobs {
    if id in jobs then jobs[id := jobs[id].(lastOk := ok, nextRunAt := next)] else jobs
  }

  function ClearStale(jobs: Jobs): Jobs {
    map id | id in jobs :: jobs[id].(running := false)
  }

  predicate IsDue(jobs: Jobs, now: int, id: int) {
    id in jobs && !jobs[id].running && jobs[id].nextRunAt <= now
  }

  predicate NoRepeats(ids: seq<int>) {
    forall i, j :: 0 <= i < j < |ids| ==> ids[i] != ids[j]
  }

  /** A result of the due query: every due job once, the longest overdue first. */
  ghost predicate IsDueList(jobs: Jobs, now: int, due: seq<int>) {
    && NoRepeats(due)
    && (forall id :: id in due <==> IsDue(jobs, now, id))
    && (forall i, j :: 0 <= i < j < |due| && due[i] in jobs && due[j] in jobs ==>
          jobs[due[i]].nextRunAt <= jobs[due[j]].nextRunAt)
  }

  /** The table, as the memory store keeps it. */
  class JobTable {
    var jobs: Jobs

    method MarkRunning(id: int, running: bool)
      modifies this
      ensures jobs == Mark(old(jobs), id, running) && jobs.Keys == old(jobs).Keys
      ensures forall r :: r in jobs ==>
        && jobs[r].nextRunAt == old(jobs)[r].nextRunAt && jobs[r].lastOk == old(jobs)[r].lastOk
        && jobs[r].running == if r == id then running else old(jobs)[r].running
    {
      if id in jobs { jobs := jobs[id := jobs[id].(running := running)]; }
    }

    method RecordRun(id: int, ok: bool, next: int)
      modifies this
      ensures jobs == Record(old(jobs), id, ok, next) && jobs.Keys == old(jobs).Keys
      ensures forall r :: r in jobs ==>
        && jobs[r].running == old(jobs)[r].running
        && jobs[r].nextRunAt == (if r == id then next else old(jobs)[r].nextRunAt)
        && jobs[r].lastOk == if r == id then ok else old(jobs)[r].lastOk
    {
      if id in jobs { jobs := jobs[id := jobs[id].(lastOk := ok, nextRunAt := next)]; }
    }

    /** Before the first poll of a process: no flag of an earlier one is left. */
    method ClearStaleRuns() returns (cleared: nat)
      modifies this
      ensures jobs == ClearStale(old(jobs))
      ensures cleared == |set id | id in old(jobs) && old(jobs)[id].running|
    {
      cleared := |set id | id in jobs && jobs[id].running|;
      jobs := map id | id in jobs :: jobs[id].(running := false);
    }

    /** One round of the poll loop, undisturbed: every due job is marked, and gets one worker. */
    method PollOnce(now: int, due: seq<int>) returns (spawned: seq<int>)
      requires IsDueList(jobs, now, due)
      modifies this
      ensures spawned == due
      ensures jobs.Keys == old(jobs).Keys
      ensures forall id :: id in jobs ==>
        jobs[id] == if IsDue(old(jobs), now, id) then old(jobs)[id].(running := true) else old(jobs)[id]
    {
      spawned := [];
      for k := 0 to |due|
        invariant spawned == due[..k]
        invariant jobs.Keys == old(jobs).Keys
        invariant forall id :: id in jobs ==>
          jobs[id] == if id in due[..k] then old(jobs)[id].(running := true) else old(jobs)[id]
      {
        MarkRunning(due[k], true);
        spawned := spawned + [due[k]];
        assert due[..k + 1] == due[..k] + [due[k]];
      }
      assert due[..|due|] == due;
    }
  }

  // ── The protocol ──

  /** A worker runs its job, works out when it is next due, records both, and clears the flag. */
  datatype Phase = Working | Computed(ok: bool, next: int) | Recorded

  datatype Worker = Worker(job: int, phase: Phase)

  /** A job handed to a worker, and the time it was due. */
  datatype Launch = Launch(job: int, dueAt: int)

  datatype State = State(
    clock: int,
    jobs: Jobs,
    pending: seq<int>,              // what is left of the poll thread's due list
    workers: map<nat, Worker>,
    launches: seq<Launch>)          // since this process started

  datatype Event =
    | Wait(now: int)
    | Create(id: int, next: int)
    | Poll(due: seq<int>)
    | LaunchNext(worker: nat)
    | Compute(worker: nat, ok: bool, next: int)
    | RecordIt(worker: nat)
    | Finish(worker: nat)
    | Restart

  /** The next due time: the schedule's answer, or a day on when the schedule has none. */
  ghost predicate IsNextDue(now: int, next: int) {
    next == now + 86400 || exists e, zone :: Fires(e, zone, now, next)
  }

  ghost predicate Enabled(s: State, e: Event) {
    match e
    case Wait(now) => now >= s.clock
    case Create(id, next) => id !in s.jobs
    case Poll(due) => s.pending == [] && IsDueList(s.jobs, s.clock, due)
    case LaunchNext(w) => s.pending != [] && w !in s.workers
    case Compute(w, ok, next) => w in s.workers && s.workers[w].phase.Working? && IsNextDue(s.clock, next)
    case RecordIt(w) => w in s.workers && s.workers[w].phase.Computed?
    case Finish(w) => w in s.workers && s.workers[w].phase.Recorded?
    case Restart => true
  }

  function DueAt(jobs: Jobs, id: int): int { if id in jobs then jobs[id].nextRunAt else 0 }

  ghost function Apply(s: State, e: Event): State
    requires Enabled(s, e)
  {
    match e
    case Wait(now) => s.(clock := now)
    case Create(id, next) => s.(jobs := s.jobs[id := Job(next, false, false)])
    case Poll(due) => s.(pending := due)
    case LaunchNext(w) =>
      var id := s.pending[0];
      s.(jobs := Mark(s.jobs, id, true), pending := s.pending[1..],
         workers := s.workers[w := Worker(id, Working)],
         launches := s.launches + [Launch(id, DueAt(s.jobs, id))])
    case Compute(w, ok, next) =>
      s.(workers := s.workers[w := s.workers[w].(phase := Computed(ok, next))])
    case RecordIt(w) =>
      var worker := s.workers[w];
      s.(jobs := Record(s.jobs, worker.job, worker.phase.ok, worker.phase.next),
         workers := s.workers[w := worker.(phase := Recorded)])
    case Finish(w) =>
      s.(jobs := Mark(s.jobs, s.workers[w].job, false), workers := s.workers - {w})
    case Restart =>
      State(s.clock, ClearStale(s.jobs), [], map[], [])
  }

  // ── The invariant ──

  ghost predicate HasWorker(s: State, id: int) {
    exists w :: w in s.workers && s.workers[w].job == id
  }

  /** `running` is set exactly while one worker of the job is in flight. */
  ghost predicate FlagIsWorker(s: State) {
    && (forall w :: w in s.workers ==> s.workers[w].job in s.jobs && s.jobs[s.workers[w].job].running)
    && (forall v, w :: v in s.workers && w in s.workers && s.workers[v].job == s.workers[w].job ==> v == w)
    && (forall id :: id in s.jobs && s.jobs[id].running ==> HasWorker(s, id))
  }

  /** What is on the due list stays due until it is launched. */
  ghost predicate PendingIsDue(s: State) {
    NoRepeats(s.pending) && forall id :: id in s.pending ==> IsDue(s.jobs, s.clock, id)
  }

  /** A worker that has not recorded yet will move its job's due time forward. */
  ghost predicate WorkersAdvance(s: State) {
    forall w :: w in s.workers ==>
      var due := DueAt(s.jobs, s.workers[w].job);
      match s.workers[w].phase
      case Working => due <= s.clock
      case Computed(ok, next) => due < next
      case Recorded => true
  }

  /** The job has a worker that has not recorded. */
  ghost predicate Unrecorded(s: State, id: int) {
    exists w :: w in s.workers && s.workers[w].job == id && !s.workers[w].phase.Recorded?
  }

  /** No job is launched twice for one due time, and later launches are for later times. */
  ghost predicate LaunchedOnce(s: State) {
    && (forall i, j :: 0 <= i < j < |s.launches| && s.launches[i].job == s.launches[j].job ==>
          s.launches[i].dueAt < s.launches[j].dueAt)
    && (forall i :: 0 <= i < |s.launches| ==>
          && s.launches[i].job in s.jobs
          && (if Unrecorded(s, s.launches[i].job) then s.launches[i].dueAt <= DueAt(s.jobs, s.launches[i].job)
              else s.launches[i].dueAt < DueAt(s.jobs, s.launches[i].job)))
  }

  ghost predicate Inv(s: State) {
    FlagIsWorker(s) && PendingIsDue(s) && WorkersAdvance(s) && LaunchedOnce(s)
  }

  /** A process starts on whatever table it finds: flags left set, no workers. */
  ghost predicate Boot(s: State) {
    s == Apply(s, Restart)
  }

  /** A due time computed at `now` lies after it. */
  lemma NextDueIsLater(now: int, next: int)
    requires IsNextDue(now, next)
    ensures next > now
  {
  }

  lemma WorkerKept(s: State, e: Event, id: int)
    requires FlagIsWorker(s) && Enabled(s, e) && id in Apply(s, e).jobs && Apply(s, e).jobs[id].running
    ensures HasWorker(Apply(s, e), id)
  {
    hide IsNextDue, IsDueList;
    var t := Apply(s, e);
    if e.LaunchNext? && id == s.pending[0] {
      assert t.workers[e.worker].job == id;
    } else {
      assert s.jobs[id].running && HasWorker(s, id);
      var w :| w in s.workers && s.workers[w].job == id;
      assert w in t.workers && t.workers[w].job == id;
    }
  }

  lemma FlagKept(s: State, e: Event)
    requires Inv(s) && Enabled(s, e)
    ensures FlagIsWorker(Apply(s, e))
  {
    hide WorkersAdvance, LaunchedOnce, IsNextDue, IsDueList, HasWorker;
    var t := Apply(s, e);
    forall id | id in t.jobs && t.jobs[id].running ensures HasWorker(t, id) {
      WorkerKept(s, e, id);
    }
    if e.LaunchNext? {
      assert IsDue(s.jobs, s.clock, s.pending[0]);
    }
  }

  lemma PendingKept(s: State, e: Event)
    requires Inv(s) && Enabled(s, e)
    ensures PendingIsDue(Apply(s, e))
  {
    hide WorkersAdvance, LaunchedOnce, HasWorker, IsNextDue, NoRepeats;
    var t := Apply(s, e);
    if e.LaunchNext? {
      TailHasNoRepeats(s.pending);
    }
    forall id | id in t.pending ensures IsDue(t.jobs, t.clock, id) {
      if !e.Poll? {
        assert id in s.pending && IsDue(s.jobs, s.clock, id);
      }
    }
    assert NoRepeats([]) by { EmptyHasNoRepeats(); }
  }

  lemma EmptyHasNoRepeats()
    ensures NoRepeats([])
  {
  }

  lemma TailHasNoRepeats(ids: seq<int>)
    requires NoRepeats(ids) && ids != []
    ensures NoRepeats(ids[1..]) && ids[0] !in ids[1..]
  {
  }

  lemma AdvanceKept(s: State, e: Event)
    requires Inv(s) && Enabled(s, e)
    ensures WorkersAdvance(Apply(s, e))
  {
    hide LaunchedOnce, HasWorker, IsNextDue, IsDueList;
    if e.Compute? { NextDueIsLater(s.clock, e.next); }
    if e.LaunchNext? { assert IsDue(s.jobs, s.clock, s.pending[0]); }
  }

  /** Only launching a job, or recording its run, changes whether it has a run to record. */
  lemma UnrecordedKept(s: State, e: Event, id: int)
    requires Enabled(s, e) && !e.Restart?
    requires e.LaunchNext? ==> s.pending[0] != id
    requires e.RecordIt? ==> s.workers[e.worker].job != id
    ensures Unrecorded(Apply(s, e), id) <==> Unrecorded(s, id)
  {
    hide IsNextDue, IsDueList;
    var t := Apply(s, e);
    if Unrecorded(s, id) {
      var w :| w in s.workers && s.workers[w].job == id && !s.workers[w].phase.Recorded?;
      assert w in t.workers && t.workers[w].job == id && !t.workers[w].phase.Recorded?;
    }
    if Unrecorded(t, id) {
      var w :| w in t.workers && t.workers[w].job == id && !t.workers[w].phase.Recorded?;
      assert w in s.workers && s.workers[w].job == id && !s.workers[w].phase.Recorded?;
    }
  }

  /** The job a step may launch, or record, before and after it. */
  lemma UnrecordedMoves(s: State, e: Event)
    requires Inv(s) && Enabled(s, e)
    ensures e.LaunchNext? ==> !Unrecorded(s, s.pending[0]) && Unrecorded(Apply(s, e), s.pending[0])
    ensures e.RecordIt? ==>
      && Unrecorded(s, s.workers[e.worker].job) && !Unrecorded(Apply(s, e), s.workers[e.worker].job)
  {
    hide LaunchedOnce, WorkersAdvance, HasWorker, IsNextDue, IsDueList;
    var t := Apply(s, e);
    if e.LaunchNext? {
      assert IsDue(s.jobs, s.clock, s.pending[0]);
      assert t.workers[e.worker] == Worker(s.pending[0], Working);
    }
  }

  lemma LaunchedKept(s: State, e: Event)
    requires Inv(s) && Enabled(s, e)
    ensures LaunchedOnce(Apply(s, e))
  {
    hide HasWorker, IsNextDue, IsDueList, Unrecorded;
    var t := Apply(s, e);
    UnrecordedMoves(s, e);
    if e.LaunchNext? { assert IsDue(s.jobs, s.clock, s.pending[0]); }
    if !e.Restart? {
      forall i | 0 <= i < |t.launches|
        ensures t.launches[i].job in t.jobs
        ensures var l := t.launches[i];
                if Unrecorded(t, l.job) then l.dueAt <= DueAt(t.jobs, l.job) else l.dueAt < DueAt(t.jobs, l.job)
      {
        var l := t.launches[i];
        assert i < |s.launches| ==> s.launches[i] == l;
        if (e.LaunchNext? && s.pending[0] == l.job) || (e.RecordIt? && s.workers[e.worker].job == l.job) {
        } else {
          UnrecordedKept(s, e, l.job);
        }
      }
    }
  }

  /** Every step keeps the invariant. */
  lemma StepKeepsInv(s: State, e: Event)
    requires Inv(s) && Enabled(s, e)
    ensures Inv(Apply(s, e))
  {
    FlagKept(s, e);
    PendingKept(s, e);
    AdvanceKept(s, e);
    LaunchedKept(s, e);
  }

  // ── Runs ──

  /** A run: any interleaving of the poll thread, the workers, the clock and restarts, from a boot. */
  ghost predicate IsRun(states: seq<State>, events: seq<Event>) {
    && |states| == |events| + 1 && Boot(states[0])
    && forall i :: 0 <= i < |events| ==> Enabled(states[i], events[i]) && states[i + 1] == Apply(states[i], events[i])
  }

  lemma {:induction false} RunKeepsInv(states: seq<State>, events: seq<Event>, n: nat)
    requires IsRun(states, events) && n < |states|
    ensures Inv(states[n])
    decreases n
  {
    hide Inv, Enabled, Apply;
    if n == 0 {
      RestartInv(states[0]);
    } else {
      RunKeepsInv(states, events, n - 1);
      StepKeepsInv(states[n - 1], events[n - 1]);
    }
  }

  lemma RestartInv(s: State)
    ensures Inv(Apply(s, Restart))
  {
  }

  /** A due time never moves back, and every recorded run moves it forward. */
  lemma DueTimeAdvances(s: State, e: Event, id: int)
    requires Inv(s) && Enabled(s, e) && id in s.jobs
    ensures id in Apply(s, e).jobs && s.jobs[id].nextRunAt <= Apply(s, e).jobs[id].nextRunAt
    ensures e.RecordIt? && s.workers[e.worker].job == id ==>
      s.jobs[id].nextRunAt < Apply(s, e).jobs[id].nextRunAt
  {
    hide LaunchedOnce, HasWorker, IsNextDue, IsDueList;
  }

  lemma {:induction false} DueTimesOnlyGrow(states: seq<State>, events: seq<Event>, i: nat, j: nat, id: int)
    requires IsRun(states, events) && i <= j < |states| && id in states[i].jobs
    ensures id in states[j].jobs && states[i].jobs[id].nextRunAt <= states[j].jobs[id].nextRunAt
    decreases j - i
  {
    hide Inv, Enabled, Apply;
    if i < j {
      DueTimesOnlyGrow(states, events, i, j - 1, id);
      RunKeepsInv(states, events, j - 1);
      DueTimeAdvances(states[j - 1], events[j - 1], id);
    }
  }

  /** Recording writes the worker's own outcome and due time into its job's row, and nothing else anywhere. */
  lemma RecordsItsOwn(s: State, w: nat)
    requires Inv(s) && Enabled(s, RecordIt(w))
    ensures var t, worker := Apply(s, RecordIt(w)), s.workers[w];
      && worker.job in s.jobs && t.jobs.Keys == s.jobs.Keys
      && t.jobs[worker.job] == Job(worker.phase.next, true, worker.phase.ok)
      && (forall id :: id in s.jobs && id != worker.job ==> t.jobs[id] == s.jobs[id])
  {
    hide LaunchedOnce, WorkersAdvance, PendingIsDue;
  }

  /** What a worker computed is what it records, whatever happens in between short of a restart. */
  lemma {:induction false} ComputedIsRecorded(states: seq<State>, events: seq<Event>, c: nat, r: nat, w: nat,
                                              ok: bool, next: int)
    requires IsRun(states, events) && c < r < |events| && events[c] == Compute(w, ok, next) && events[r] == RecordIt(w)
    requires forall k :: c < k < r ==> events[k] != Restart && events[k] != RecordIt(w)
    ensures w in states[c].workers
    ensures var id := states[c].workers[w].job;
      id in states[r + 1].jobs && states[r + 1].jobs[id] == Job(next, true, ok)
  {
    hide Inv, IsNextDue;
    RunKeepsInv(states, events, r);
    assert Enabled(states[c], events[c]);
    ComputedStays(states, events, c, r, w);
    assert Enabled(states[r], events[r]) && states[r + 1] == Apply(states[r], events[r]);
    RecordsItsOwn(states[r], w);
  }

  lemma {:induction false} ComputedStays(states: seq<State>, events: seq<Event>, c: nat, k: nat, w: nat)
    requires IsRun(states, events) && c < k < |states| && events[c].Compute? && events[c].worker == w
    requires forall j :: c < j < k ==> events[j] != Restart && events[j] != RecordIt(w)
    ensures w in states[c].workers && w in states[k].workers
    ensures states[k].workers[w] == Worker(states[c].workers[w].job, Computed(events[c].ok, events[c].next))
    decreases k
  {
    hide IsDueList, IsNextDue;
    var s, e := states[k - 1], events[k - 1];
    assert Enabled(s, e) && states[k] == Apply(s, e);
    if k > c + 1 { ComputedStays(states, events, c, k - 1, w); }
  }

  /** A poll picks every overdue job that has no worker in flight, and no other. */
  lemma PollPicksAllIdle(states: seq<State>, events: seq<Event>, n: nat, id: int)
    requires IsRun(states, events) && n < |events| && events[n].Poll?
    ensures id in events[n].due <==>
      && id in states[n].jobs && states[n].jobs[id].nextRunAt <= states[n].clock && !HasWorker(states[n], id)
  {
    RunKeepsInv(states, events, n);
    assert Enabled(states[n], events[n]);
  }

  /** After a restart, the first poll picks every overdue job, whatever was running before. */
  lemma RestartLosesNothing(states: seq<State>, events: seq<Event>, r: nat, n: nat, id: int)
    requires IsRun(states, events) && r < n < |events| && events[r] == Restart && events[n].Poll?
    requires forall k :: r < k < n ==> !events[k].Poll?
    requires id in states[n].jobs && states[n].jobs[id].nextRunAt <= states[n].clock
    ensures id in events[n].due
  {
    hide Inv, IsDueList, Apply;
    IdleUntilPoll(states, events, r, n);
    PollPicksAllIdle(states, events, n, id);
  }

  lemma {:induction false} IdleUntilPoll(states: seq<State>, events: seq<Event>, r: nat, n: nat)
    requires IsRun(states, events) && r < n < |states| && events[r] == Restart
    requires forall k :: r < k < n ==> !events[k].Poll?
    ensures states[n].pending == [] && states[n].workers == map[]
    decreases n
  {
    hide Inv, IsDueList;
    assert states[r + 1] == Apply(states[r], events[r]);
    if n > r + 1 {
      IdleUntilPoll(states, events, r, n - 1);
      assert Enabled(states[n - 1], events[n - 1]) && states[n] == Apply(states[n - 1], events[n - 1]);
    }
  }

  function JobsOf(launches: seq<Launch>): (ids: seq<int>)
    ensures |ids| == |launches| && forall i :: 0 <= i < |ids| ==> ids[i] == launches[i].job
  {
    if launches == [] then [] else JobsOf(launches[..|launches| - 1]) + [launches[|launches| - 1].job]
  }

  /** What was launched since `before`. */
  function Since(before: seq<Launch>, after: seq<Launch>): seq<int>
    requires |before| <= |after|
  {
    JobsOf(after[|before|..])
  }

  /** The poll at n is the last thing before k that lists or forgets jobs. */
  ghost predicate LastPoll(events: seq<Event>, n: nat, k: nat) {
    && n < k <= |events| && events[n].Poll?
    && forall i :: n < i < k ==> !events[i].Poll? && !events[i].Restart?
  }

  /** After a poll and before the next, what was launched and what is pending make up its list, in its order. */
  lemma {:induction false} ListIsWorkedOff(states: seq<State>, events: seq<Event>, n: nat, k: nat)
    requires IsRun(states, events) && LastPoll(events, n, k)
    ensures states[n].launches <= states[k].launches
    ensures Since(states[n].launches, states[k].launches) + states[k].pending == events[n].due
    decreases k
  {
    hide IsDueList, Inv;
    var s, t, e := states[k - 1], states[k], events[k - 1];
    assert Enabled(s, e) && t == Apply(s, e);
    if k > n + 1 {
      ListIsWorkedOff(states, events, n, k - 1);
      if e.LaunchNext? { LaunchedNext(states[n].launches, s, e.worker); }
    }
  }

  lemma LaunchedNext(before: seq<Launch>, s: State, w: nat)
    requires Enabled(s, LaunchNext(w)) && before <= s.launches
    ensures var t := Apply(s, LaunchNext(w));
      before <= t.launches && Since(before, t.launches) + t.pending == Since(before, s.launches) + s.pending
  {
    var t := Apply(s, LaunchNext(w));
    assert t.launches[|before|..][..|s.launches| - |before|] == s.launches[|before|..];
    assert Since(before, t.launches) == Since(before, s.launches) + [s.pending[0]];
  }

  /** Between a poll and the next one of the same process every listed job is launched, once, and nothing else is. */
  lemma ListedAreLaunchedOnce(states: seq<State>, events: seq<Event>, n: nat, m: nat)
    requires IsRun(states, events) && LastPoll(events, n, m) && m < |events| && events[m].Poll?
    ensures states[n].launches <= states[m].launches
    ensures Since(states[n].launches, states[m].launches) == events[n].due && NoRepeats(events[n].due)
  {
    hide IsDueList;
    ListIsWorkedOff(states, events, n, m);
    assert Enabled(states[m], events[m]) && Enabled(states[n], events[n]);
    ListHasNoRepeats(states[n].jobs, states[n].clock, events[n].due);
  }

  lemma ListHasNoRepeats(jobs: Jobs, now: int, due: seq<int>)
    requires IsDueList(jobs, now, due)
    ensures NoRepeats(due)
  {
  }

  /** Launching is all that stands between a due list and its jobs running. */
  lemma LaunchRuns(s: State, w: nat)
    requires Inv(s) && Enabled(s, LaunchNext(w))
    ensures var t := Apply(s, LaunchNext(w));
            && s.pending[0] in s.jobs && s.pending[0] in t.jobs
            && t.jobs[s.pending[0]].running && HasWorker(t, s.pending[0]) && t.pending == s.pending[1..]
            && !s.jobs[s.pending[0]].running && !HasWorker(s, s.pending[0])
  {
    hide LaunchedOnce, WorkersAdvance;
    assert IsDue(s.jobs, s.clock, s.pending[0]);
    var t := Apply(s, LaunchNext(w));
    assert t.workers[w].job == s.pending[0];
  }
}
