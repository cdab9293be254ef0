/**
 * The job status monitor: a running flag that guards starting and stopping
 * the job scheduler, and an item counter held in a Java AtomicInteger.
 */
module JobMonitor {

  /** A Java int. */
  type Int32 = x: int | -0x8000_0000 <= x < 0x8000_0000

  /** Two's-complement wrap-around, as AtomicInteger.addAndGet does on overflow. */
  function Wrap32(x: int): (r: Int32)
    ensures (r - x) % 0x1_0000_0000 == 0
    ensures -0x8000_0000 <= x < 0x8000_0000 ==> r == x
  {
    (x + 0x8000_0000) % 0x1_0000_0000 - 0x8000_0000
  }

  /** A call the monitor makes into the job scheduler. */
  datatype SchedulerCall = ScheduleJob | StopJob

  /** The monitor's state, with the calls it has made into the scheduler so far. */
  datatype MonitorState = MonitorState(running: bool, itemCount: Int32, calls: seq<SchedulerCall>)

  const Initial := MonitorState(false, 0, [])

  /** startScheduler: schedule the job and mark it running, unless it is running already. */
  function Start(s: MonitorState): (r: MonitorState)
    ensures !s.running ==> r.running && r.calls == s.calls + [ScheduleJob]
    ensures s.running ==> r == s
    ensures r.itemCount == s.itemCount
  {
    if s.running then s else s.(running := true, calls := s.calls + [ScheduleJob])
  }

  /** stopScheduler: stop the job and mark it stopped, unless it is stopped already. */
  function Stop(s: MonitorState): (r: MonitorState)
    ensures s.running ==> !r.running && r.calls == s.calls + [StopJob]
    ensures !s.running ==> r == s
    ensures r.itemCount == s.itemCount
  {
    if s.running then s.(running := false, calls := s.calls + [StopJob]) else s
  }

  /**
   * updateItemCount: add to the counter with int wrap-around. It adds
   * exactly `count` unless the int overflows, and only touches the counter.
   */
  function AddItems(s: MonitorState, count: Int32): (r: MonitorState)
    ensures -0x8000_0000 <= s.itemCount + count < 0x8000_0000 ==> r.itemCount == s.itemCount + count
    ensures (r.itemCount - (s.itemCount + count)) % 0x1_0000_0000 == 0
    ensures r.running == s.running && r.calls == s.calls
  {
    s.(itemCount := Wrap32(s.itemCount + count))
  }

  /** resetItemCount: zero the counter and touch nothing else. */
  function ResetItems(s: MonitorState): (r: MonitorState)
    ensures r.itemCount == 0
    ensures r.running == s.running && r.calls == s.calls
  {
    s.(itemCount := 0)
  }

  /** The calls alternate, starting with a scheduleJob. */
  predicate Alternating(calls: seq<SchedulerCall>) {
    forall i :: 0 <= i < |calls| ==> calls[i] == if i % 2 == 0 then ScheduleJob else StopJob
  }

  /** The invariant the guards keep: calls alternate and the flag says whether the last was scheduleJob. */
  predicate Valid(s: MonitorState) {
    Alternating(s.calls) && s.running == (|s.calls| % 2 == 1)
  }

  function CountOf(calls: seq<SchedulerCall>, c: SchedulerCall): nat
    decreases |calls|
  {
    if calls == [] then 0
    else CountOf(calls[..|calls| - 1], c) + if calls[|calls| - 1] == c then 1 else 0
  }

  /** The commands a client can issue to the monitor. */
  datatype Command = StartScheduler | StopScheduler | UpdateItemCount(count: Int32) | ResetItemCount

  function Apply(s: MonitorState, c: Command): MonitorState {
    match c
    case StartScheduler => Start(s)
    case StopScheduler => Stop(s)
    case UpdateItemCount(n) => AddItems(s, n)
    case ResetItemCount => ResetItems(s)
  }

  function Replay(s: MonitorState, cmds: seq<Command>): MonitorState
    decreases |cmds|
  {
    if cmds == [] then s else Apply(Replay(s, cmds[..|cmds| - 1]), cmds[|cmds| - 1])
  }

  lemma InitialValid()
    ensures Valid(Initial) && !Initial.running && Initial.itemCount == 0
  {
  }

  /** A second startScheduler is a no-op. */
  lemma StartIdempotent(s: MonitorState)
    ensures Start(Start(s)) == Start(s)
  {
  }

  /** A second stopScheduler is a no-op. */
  lemma StopIdempotent(s: MonitorState)
    ensures Stop(Stop(s)) == Stop(s)
  {
  }

  /** Every command keeps the invariant. */
  lemma ApplyPreservesValid(s: MonitorState, c: Command)
    requires Valid(s)
    ensures Valid(Apply(s, c))
  {
    var t := Apply(s, c);
    if |t.calls| > |s.calls| {
      assert t.calls[..|s.calls|] == s.calls;
      forall i | 0 <= i < |t.calls| ensures t.calls[i] == if i % 2 == 0 then ScheduleJob else StopJob {
        if i < |s.calls| {
          assert t.calls[i] == s.calls[i];
        }
      }
    }
  }

  /** Any sequence of commands from the initial state keeps the invariant. */
  lemma {:induction false} ReplayPreservesValid(s: MonitorState, cmds: seq<Command>)
    requires Valid(s)
    ensures Valid(Replay(s, cmds))
    decreases |cmds|
  {
    if cmds != [] {
      ReplayPreservesValid(s, cmds[..|cmds| - 1]);
      ApplyPreservesValid(Replay(s, cmds[..|cmds| - 1]), cmds[|cmds| - 1]);
    }
  }

  /** Alternating calls hold as many scheduleJob calls as stopJob calls, plus one when their number is odd. */
  lemma {:induction false} AlternatingBalance(calls: seq<SchedulerCall>)
    requires Alternating(calls)
    ensures CountOf(calls, ScheduleJob) == CountOf(calls, StopJob) + |calls| % 2
    decreases |calls|
  {
    if calls != [] {
      var init := calls[..|calls| - 1];
      assert Alternating(init) by {
        forall i | 0 <= i < |init| ensures init[i] == if i % 2 == 0 then ScheduleJob else StopJob {
          assert init[i] == calls[i];
        }
      }
      AlternatingBalance(init);
    }
  }

  /**
   * In every reachable state the job scheduler was stopped exactly as often
   * as it was scheduled, except for the one schedule of a running job.
   */
  lemma CallsBalanced(s: MonitorState)
    requires Valid(s)
    ensures CountOf(s.calls, ScheduleJob) == CountOf(s.calls, StopJob) + if s.running then 1 else 0
  {
    AlternatingBalance(s.calls);
  }

  /** The job scheduler as the monitor sees it: only the calls made into it are recorded. */
  class JobSchedulerCalls {
    var calls: seq<SchedulerCall>

    constructor ()
      ensures calls == []
    {
      calls := [];
    }

    method ScheduleJob()
      modifies this
      ensures calls == old(calls) + [SchedulerCall.ScheduleJob]
    {
      calls := calls + [SchedulerCall.ScheduleJob];
    }

    method StopJob()
      modifies this
      ensures calls == old(calls) + [SchedulerCall.StopJob]
    {
      calls := calls + [SchedulerCall.StopJob];
    }
  }

  class JobStatusMonitor {
    const jobScheduler: JobSchedulerCalls
    var isSchedulerRunning: bool
    var itemCount: Int32

    function State(): MonitorState
      reads this, jobScheduler
    {
      MonitorState(isSchedulerRunning, itemCount, jobScheduler.calls)
    }

    /** A new monitor is stopped with a zero count; it is in Initial when the scheduler has had no calls. */
    constructor (jobScheduler: JobSchedulerCalls)
      ensures this.jobScheduler == jobScheduler
      ensures State() == Initial.(calls := jobScheduler.calls)
    {
      this.jobScheduler := jobScheduler;
      isSchedulerRunning := false;
      itemCount := 0;
    }

    method StartScheduler()
      modifies this, jobScheduler
      ensures State() == Start(old(State()))
    {
      if !isSchedulerRunning {
        jobScheduler.ScheduleJob();
        isSchedulerRunning := true;
      }
    }

    method StopScheduler()
      modifies this, jobScheduler
      ensures State() == Stop(old(State()))
    {
      if isSchedulerRunning {
        jobScheduler.StopJob();
        isSchedulerRunning := false;
      }
    }

    /** monitorJobStatus: reports (logs) the current count and changes nothing. */
    method MonitorJobStatus() returns (reported: Int32)
      ensures reported == itemCount
    {
      reported := itemCount;
    }

    method UpdateItemCount(count: Int32)
      modifies this
      ensures State() == AddItems(old(State()), count)
    {
      itemCount := Wrap32(itemCount + count);
    }

    method ResetItemCount()
      modifies this
      ensures State() == ResetItems(old(State()))
    {
      itemCount := 0;
    }

    method IsSchedulerRunning() returns (running: bool)
      ensures running == isSchedulerRunning
    {
      running := isSchedulerRunning;
    }
  }
}
