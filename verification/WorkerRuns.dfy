/**
 What every interleaving of ns-3/test.py guarantees: it ends, nobody waits forever, each job is
 delivered once, the counters add up, and without an interrupt the result does not depend on the
 interleaving.
 */
module WorkerRuns {
  import opened Common
  import opened WorkerProtocol

  // ---------- Nobody waits forever ----------

  /** In every reachable state but the last, some thread can take a step. */
  lemma {:induction false} SomeStepEnabled(c: Config, s: State) returns (l: Label)
    requires Inv(c, s) && s.main != Finished
    ensures Enabled(c, s, l) && l != Interrupt
  {
    match s.main
    case Spawning(k) => l := if k < c.processors then Spawn else Advance;
    case Dispatching(k) => l := if k < |c.skip| then Dispatch else Advance;
    case Breaking(k) => l := if k < c.processors then DispatchBreak else Advance;
    case Collecting(k) => l := CollectorServed(c, s);
    case Joining(k) => l := JoinServed(c, s);
  }

  lemma {:induction false} HolderCanStep(c: Config, s: State) returns (l: Label)
    requires Inv(c, s) && Busy(s.workers) > 0
    ensures Enabled(c, s, l) && l != Interrupt
  {
    var w := BusyHasHolder(s.workers);
    assert GoodWorker(c, s, s.workers[w]);
    l := if s.workers[w].Got? then Check(w) else if s.workers[w].Running? then Finish(w) else Put(w);
  }

  /** While the collector waits for results, either one is there or a worker can move. */
  lemma {:induction false} CollectorServed(c: Config, s: State) returns (l: Label)
    requires Inv(c, s) && s.main.Collecting?
    ensures Enabled(c, s, l) && l != Interrupt
  {
    if s.main.k >= |c.skip| { return Advance; }
    if s.output != [] { return Collect; }
    if Busy(s.workers) > 0 { l := HolderCanStep(c, s); return; }
    // all jobs taken so far are collected, so some are still queued and no break has been taken
    NeitherHoldsNorGone(s.workers, 0);
    l := Get(0);
  }

  lemma {:induction false} NeitherHoldsNorGone(ws: seq<Worker>, i: nat)
    requires i < |ws| && Busy(ws) == 0
    ensures !Holding(ws[i]) && (Gone(ws) == 0 ==> !ws[i].Exited?)
    decreases |ws|
  {
    if i > 0 { NeitherHoldsNorGone(ws[1..], i - 1); }
  }

  /** While run_tests waits in a join, that worker has returned or some worker can move. */
  lemma {:induction false} JoinServed(c: Config, s: State) returns (l: Label)
    requires Inv(c, s) && s.main.Joining?
    ensures Enabled(c, s, l) && l != Interrupt
  {
    var k := s.main.k;
    if k >= c.processors { return Advance; }
    if s.workers[k].Exited? { return Join; }
    if Busy(s.workers) > 0 { l := HolderCanStep(c, s); return; }
    NeitherHoldsNorGone(s.workers, k);
    Gap(s.workers, k);
    l := Get(k);
  }

  // ---------- Every run ends ----------

  function WorkLeft(w: Worker): nat {
    match w
    case Got(_) => 4
    case Running(_) => 3
    case Posting(_) => 2
    case _ => 0
  }

  function WorkersLeft(ws: seq<Worker>): nat
    decreases |ws|
  {
    if ws == [] then 0 else WorkersLeft(ws[1..]) + WorkLeft(ws[0])
  }

  /** Steps still ahead of run_tests itself. */
  function MainLeft(c: Config, m: Main): int {
    match m
    case Spawning(k) => 5 + (c.processors - k) + 6 * |c.skip| + 2 * c.processors + c.processors
    case Dispatching(k) => 4 + 6 * (|c.skip| - k) + 2 * c.processors + c.processors
    case Breaking(k) => 3 + 2 * (c.processors - k) + c.processors
    case Collecting(k) => 2 + c.processors
    case Joining(k) => 1 + c.processors - k
    case Finished => 0
  }

  /** Five steps for a job on the input queue, one for a break and one for a result. */
  function Left(c: Config, s: State): int {
    MainLeft(c, s.main) + 5 * Max(0, |c.skip| - Taken(c, s)) - 5 * Max(0, |c.skip| - Issued(c, s.main))
    + Max(0, Issued(c, s.main) - |c.skip|) - Max(0, Taken(c, s) - |c.skip|)
    + WorkersLeft(s.workers) + |s.output|
  }

  lemma {:induction false} WorkersLeftSet(ws: seq<Worker>, w: nat, y: Worker)
    requires w < |ws|
    ensures WorkersLeft(ws[w := y]) + WorkLeft(ws[w]) == WorkersLeft(ws) + WorkLeft(y)
    decreases |ws|
  {
    if w == 0 {
      assert ws[w := y][1..] == ws[1..];
    } else {
      WorkersLeftSet(ws[1..], w - 1, y);
      assert ws[w := y][1..] == ws[1..][w - 1 := y];
    }
  }

  lemma {:induction false} MainLeavesLess(c: Config, s: State, l: Label)
    requires Inv(c, s) && Enabled(c, s, l) && (l.Dispatch? || l.DispatchBreak? || l.Advance? || l.Join?)
    ensures Left(c, Next(c, s, l)) < Left(c, s)
  {
    var t := Next(c, s, l);
    assert t.workers == s.workers && t.output == s.output && Taken(c, t) == Taken(c, s);
  }

  lemma {:induction false} SpawnLeavesLess(c: Config, s: State)
    requires Inv(c, s) && Enabled(c, s, Spawn)
    ensures Left(c, Next(c, s, Spawn)) < Left(c, s)
  {
    var t := Next(c, s, Spawn);
    WorkersLeftSet(s.workers, s.main.k, Idle);
    assert t.workers == s.workers[s.main.k := Idle];
    assert s.workers[s.main.k].NotStarted?;
    assert t.output == s.output && Taken(c, t) == Taken(c, s);
  }

  lemma {:induction false} WorkerLeavesLess(c: Config, s: State, l: Label, w: nat)
    requires ValidConfig(c) && GoodInput(c, s) && Enabled(c, s, l) && (l == Get(w) || l == Check(w) || l == Finish(w) || l == Put(w))
    ensures Left(c, Next(c, s, l)) < Left(c, s)
  {
    var t := Next(c, s, l);
    WorkersLeftSet(s.workers, w, t.workers[w]);
    assert t.workers == s.workers[w := t.workers[w]] && t.main == s.main;
    if l.Get? {
      assert s.input[0].id == Taken(c, s) && Taken(c, t) == Taken(c, s) + 1;
    }
  }

  /** Every step of a thread leaves fewer steps; an interrupt leaves as many. */
  lemma {:induction false} StepLeavesLess(c: Config, s: State, l: Label)
    requires Inv(c, s) && Enabled(c, s, l)
    ensures l != Interrupt ==> Left(c, Next(c, s, l)) < Left(c, s)
    ensures l == Interrupt ==> Left(c, Next(c, s, l)) == Left(c, s)
  {
    match l
    case Spawn => SpawnLeavesLess(c, s);
    case Get(w) => WorkerLeavesLess(c, s, l, w);
    case Check(w) => WorkerLeavesLess(c, s, l, w);
    case Finish(w) => WorkerLeavesLess(c, s, l, w);
    case Put(w) => WorkerLeavesLess(c, s, l, w);
    case Collect =>
    case Interrupt =>
    case _ => MainLeavesLess(c, s, l);
  }

  function ThreadSteps(run: seq<Label>): nat
    decreases |run|
  {
    if run == [] then 0 else ThreadSteps(run[1..]) + if run[0] == Interrupt then 0 else 1
  }

  lemma {:induction false} RunLeaves(c: Config, s: State, run: seq<Label>)
    requires Inv(c, s) && Run(c, s, run).Reached?
    ensures ThreadSteps(run) + Left(c, Run(c, s, run).state) <= Left(c, s)
    decreases |run|
  {
    if run != [] {
      StepLeavesLess(c, s, run[0]);
      StepKeeps(c, s, run[0]);
      RunLeaves(c, Next(c, s, run[0]), run[1..]);
    }
  }

  /** No interleaving is longer than this, whatever the scheduler does and however often the
      interrupt comes. */
  lemma {:induction false} EveryRunEnds(c: Config, run: seq<Label>)
    requires ValidConfig(c) && Run(c, Init(c), run).Reached?
    ensures ThreadSteps(run) <= 6 * |c.skip| + 4 * c.processors + 5
  {
    InitKeeps(c);
    NoWorkAtStart(c.processors);
    RunLeaves(c, Init(c), run);
    RunKeeps(c, Init(c), run);
  }

  lemma {:induction false} NoWorkAtStart(n: nat)
    ensures WorkersLeft(seq(n, _ => NotStarted)) == 0
  {
    if n > 0 {
      NoWorkAtStart(n - 1);
      assert seq(n, _ => NotStarted)[1..] == seq(n - 1, _ => NotStarted);
    }
  }

  /** A run that no thread can extend has come to the end of run_tests. */
  lemma {:induction false} OnlyStuckAtTheEnd(c: Config, run: seq<Label>)
    requires ValidConfig(c) && Run(c, Init(c), run).Reached?
    requires forall l :: Enabled(c, Run(c, Init(c), run).state, l) ==> l == Interrupt
    ensures Run(c, Init(c), run).state.main == Finished
  {
    InitKeeps(c);
    RunKeeps(c, Init(c), run);
    var s := Run(c, Init(c), run).state;
    if s.main != Finished {
      var l := SomeStepEnabled(c, s);
      assert false;
    }
  }

  // ---------- What has happened by then ----------

  /** At the end both queues are empty, each dispatched job has been collected exactly once, and
      each worker has returned on a break job of its own. */
  lemma {:induction false} DeliveredOnce(c: Config, s: State)
    requires Inv(c, s) && s.main == Finished
    ensures s.input == [] && s.output == [] && |s.collected| == |c.skip|
    ensures forall x: nat :: Occurs(s.collected, x) == if x < |c.skip| then 1 else 0
    ensures forall w :: 0 <= w < |s.workers| ==> s.workers[w].Exited?
    ensures forall x: nat :: ExitedOn(s.workers, x) == if |c.skip| <= x < |c.skip| + c.processors then 1 else 0
  {
    AllGone(s.workers);
    forall x: nat
      ensures InHands(s.workers, x) == 0 && Occurs(s.output, x) == 0
    {
      NoHands(s.workers, x);
    }
  }

  lemma {:induction false} AllGone(ws: seq<Worker>)
    requires forall i :: 0 <= i < |ws| ==> ws[i].Exited?
    ensures Gone(ws) == |ws| && Busy(ws) == 0
    decreases |ws|
  {
    if ws != [] { AllGone(ws[1..]); }
  }

  lemma {:induction false} NoHands(ws: seq<Worker>, x: nat)
    requires forall i :: 0 <= i < |ws| ==> ws[i].Exited?
    ensures InHands(ws, x) == 0
    decreases |ws|
  {
    if ws != [] { NoHands(ws[1..], x); }
  }

  // ---------- The counters ----------

  function Interrupted(jobs: seq<Job>): nat
    decreases |jobs|
  {
    if jobs == [] then 0 else Interrupted(jobs[..|jobs| - 1]) + if jobs[|jobs| - 1].isBreak then 1 else 0
  }

  function Sum(t: Tally): nat { t.passed + t.failed + t.valgrind + t.crashed + t.skipped }

  predicate Fine(j: Job) { !j.isBreak && (j.isSkip || j.returncode == 0) }

  predicate AllFine(jobs: seq<Job>) {
    forall i :: 0 <= i < |jobs| ==> Fine(jobs[i])
  }

  function Successes(t: Tally): nat { t.passed + t.skipped }

  lemma {:induction false} TallyAddsUp(jobs: seq<Job>)
    ensures Sum(TallyOf(jobs)) + Interrupted(jobs) == |jobs|
    ensures Successes(TallyOf(jobs)) <= |jobs|
    ensures Successes(TallyOf(jobs)) == |jobs| <==> AllFine(jobs)
    decreases |jobs|
  {
    if jobs != [] {
      TallyAddsUp(jobs[..|jobs| - 1]);
    }
  }

  /** What run_tests prints about a result that was not interrupted. */
  datatype Status = Pass | Fail | Valgr | Crash | Skip

  predicate HasStatus(isSkip: bool, returncode: int, v: Status) {
    match v
    case Pass => !isSkip && returncode == 0
    case Fail => !isSkip && returncode == 1
    case Valgr => !isSkip && returncode == 2
    case Crash => !isSkip && (returncode < 0 || returncode > 2)
    case Skip => isSkip
  }

  /** The results that were not interrupted and have status v. */
  function ResultsWith(jobs: seq<Job>, v: Status): set<nat> {
    set i: nat | i < |jobs| && !jobs[i].isBreak && HasStatus(jobs[i].isSkip, jobs[i].returncode, v)
  }

  /** Every counter is the number of results of its status. */
  predicate Reports(jobs: seq<Job>, t: Tally) {
    && t.passed == |ResultsWith(jobs, Pass)| && t.failed == |ResultsWith(jobs, Fail)|
    && t.valgrind == |ResultsWith(jobs, Valgr)| && t.crashed == |ResultsWith(jobs, Crash)|
    && t.skipped == |ResultsWith(jobs, Skip)|
  }

  lemma {:induction false} ResultsPush(jobs: seq<Job>, v: Status)
    requires jobs != []
    ensures var j := jobs[|jobs| - 1];
      |ResultsWith(jobs, v)| == |ResultsWith(jobs[..|jobs| - 1], v)|
        + if !j.isBreak && HasStatus(j.isSkip, j.returncode, v) then 1 else 0
  {
    var n := |jobs| - 1;
    OneMoreElement(ResultsWith(jobs, v), ResultsWith(jobs[..n], v), n,
                   !jobs[n].isBreak && HasStatus(jobs[n].isSkip, jobs[n].returncode, v));
  }

  lemma {:induction false} TallyReports(jobs: seq<Job>)
    ensures Reports(jobs, TallyOf(jobs))
    decreases |jobs|
  {
    if jobs == [] {
      forall v
        ensures ResultsWith(jobs, v) == {}
      {}
    } else {
      TallyReports(jobs[..|jobs| - 1]);
      forall v
        ensures var j := jobs[|jobs| - 1];
          |ResultsWith(jobs, v)| == |ResultsWith(jobs[..|jobs| - 1], v)|
            + if !j.isBreak && HasStatus(j.isSkip, j.returncode, v) then 1 else 0
      {
        ResultsPush(jobs, v);
      }
      hide ResultsWith;
    }
  }

  /** What run_tests returns, with totalTests as many as were dispatched. */
  function ExitStatus(c: Config, s: State): int {
    if s.tally.passed + s.tally.skipped == |c.skip| then 0 else 1
  }

  predicate NoneInterrupted(jobs: seq<Job>) {
    forall i :: 0 <= i < |jobs| ==> !jobs[i].isBreak
  }

  predicate AllCodesZero(c: Config) {
    forall x :: 0 <= x < |c.skip| == |c.code| && !c.skip[x] ==> c.code[x] == 0
  }

  lemma {:induction false} FineMeansZero(c: Config, s: State)
    requires Inv(c, s) && s.main == Finished
    ensures AllFine(s.collected) <==> NoneInterrupted(s.collected) && AllCodesZero(c)
  {
    DeliveredOnce(c, s);
    if AllFine(s.collected) {
      forall x | 0 <= x < |c.skip| && !c.skip[x]
        ensures c.code[x] == 0
      {
        var i := Find(s.collected, x);
        assert GoodResult(c, s, s.collected[i]) && Fine(s.collected[i]);
      }
    } else {
      var i :| 0 <= i < |s.collected| && !Fine(s.collected[i]);
      assert GoodResult(c, s, s.collected[i]);
    }
  }

  /** Every job is counted once, and run_tests returns 0 exactly when no job came back interrupted
      and every job that was not to be skipped returned 0. */
  lemma {:induction false} FinalReport(c: Config, s: State)
    requires Inv(c, s) && s.main == Finished
    ensures Sum(s.tally) + Interrupted(s.collected) == |c.skip|
    ensures ExitStatus(c, s) == 0 <==> NoneInterrupted(s.collected) && AllCodesZero(c)
    ensures Reports(s.collected, s.tally)
  {
    ReportOf(c, s);
    FineMeansZero(c, s);
    TallyReports(s.collected);
  }

  lemma {:induction false} ReportOf(c: Config, s: State)
    requires |s.collected| == |c.skip| && s.tally == TallyOf(s.collected)
    ensures Sum(s.tally) + Interrupted(s.collected) == |c.skip|
    ensures ExitStatus(c, s) == 0 <==> AllFine(s.collected)
  {
    TallyAddsUp(s.collected);
  }

  lemma {:induction false} Find(jobs: seq<Job>, x: nat) returns (i: nat)
    requires Occurs(jobs, x) > 0
    ensures i < |jobs| && jobs[i].id == x
    decreases |jobs|
  {
    var n := |jobs| - 1;
    if jobs[n].id == x { return n; }
    i := Find(jobs[..n], x);
  }

  // ---------- Independence of the interleaving ----------

  /** The result of a job that is not interrupted. */
  function ResultOf(c: Config, x: nat): Job
    requires x < |c.skip| == |c.code|
  {
    Job(x, false, c.skip[x], if c.skip[x] then 0 else c.code[x])
  }

  /** The counters of running the first n jobs one after the other. */
  function SequentialTally(c: Config, n: nat): Tally
    requires n <= |c.skip| == |c.code|
  {
    if n == 0 then Tally(0, 0, 0, 0, 0) else Count(SequentialTally(c, n - 1), ResultOf(c, n - 1))
  }

  /** The first n jobs of the configuration that end with status v if none is interrupted. */
  function JobsWith(c: Config, n: nat, v: Status): set<nat>
    requires n <= |c.skip| == |c.code|
  {
    set x: nat | x < n && HasStatus(c.skip[x], c.code[x], v)
  }

  /** Every counter is the number of configured jobs of its status. */
  predicate ReportsJobs(c: Config, n: nat, t: Tally)
    requires n <= |c.skip| == |c.code|
  {
    && t.passed == |JobsWith(c, n, Pass)| && t.failed == |JobsWith(c, n, Fail)|
    && t.valgrind == |JobsWith(c, n, Valgr)| && t.crashed == |JobsWith(c, n, Crash)|
    && t.skipped == |JobsWith(c, n, Skip)|
  }

  lemma {:induction false} SequentialReports(c: Config, n: nat)
    requires n <= |c.skip| == |c.code|
    ensures ReportsJobs(c, n, SequentialTally(c, n))
    decreases n
  {
    if n == 0 {
      forall v
        ensures JobsWith(c, 0, v) == {}
      {}
    } else {
      SequentialReports(c, n - 1);
      forall v
        ensures |JobsWith(c, n, v)| == |JobsWith(c, n - 1, v)| + if HasStatus(c.skip[n - 1], c.code[n - 1], v) then 1 else 0
      {
        OneMoreElement(JobsWith(c, n, v), JobsWith(c, n - 1, v), n - 1, HasStatus(c.skip[n - 1], c.code[n - 1], v));
      }
      hide JobsWith;
    }
  }

  function Without(jobs: seq<Job>, i: nat): seq<Job>
    requires i < |jobs|
  {
    jobs[..i] + jobs[i + 1..]
  }

  lemma {:induction false} LastOccurs(jobs: seq<Job>)
    ensures jobs != [] ==> Occurs(jobs, jobs[|jobs| - 1].id) > 0
  {}

  lemma {:induction false} CountSwap(t: Tally, a: Job, b: Job)
    ensures Count(Count(t, a), b) == Count(Count(t, b), a)
  {}

  /** Counting does not depend on the order. */
  lemma {:induction false} CountLast(jobs: seq<Job>, i: nat)
    requires i < |jobs|
    ensures TallyOf(jobs) == Count(TallyOf(Without(jobs, i)), jobs[i])
    decreases |jobs|
  {
    var n := |jobs| - 1;
    if i == n {
      assert Without(jobs, i) == jobs[..n];
    } else {
      CountLast(jobs[..n], i);
      var fewer := Without(jobs[..n], i);
      assert jobs[..n][i] == jobs[i];
      assert Without(jobs, i) == fewer + [jobs[n]];
      assert (fewer + [jobs[n]])[..n - 1] == fewer;
      CountSwap(TallyOf(fewer), jobs[i], jobs[n]);
    }
  }

  lemma {:induction false} OccursWithout(jobs: seq<Job>, i: nat, x: nat)
    requires i < |jobs|
    ensures Occurs(jobs, x) == Occurs(Without(jobs, i), x) + if jobs[i].id == x then 1 else 0
    decreases |jobs|
  {
    var n := |jobs| - 1;
    if i == n {
      assert Without(jobs, i) == jobs[..n];
    } else {
      OccursWithout(jobs[..n], i, x);
      assert Without(jobs, i)[..n - 1] == Without(jobs[..n], i);
      assert Without(jobs, i)[n - 1] == jobs[n];
    }
  }

  /** Uninterrupted results with the numbers below n, once each in any order, are counted as in
      sequence. */
  lemma {:induction false} AnyOrderCounts(c: Config, jobs: seq<Job>, n: nat)
    requires n <= |c.skip| == |c.code|
    requires forall x: nat :: Occurs(jobs, x) == if x < n then 1 else 0
    requires forall i :: 0 <= i < |jobs| ==>
      !jobs[i].isBreak && GoodJob(c, jobs[i]) && (!jobs[i].isSkip ==> jobs[i].returncode == c.code[jobs[i].id])
    ensures TallyOf(jobs) == SequentialTally(c, n)
    decreases n
  {
    if n == 0 {
      LastOccurs(jobs);
    } else {
      var i := Find(jobs, n - 1);
      CountLast(jobs, i);
      forall x: nat
        ensures Occurs(Without(jobs, i), x) == if x < n - 1 then 1 else 0
      {
        OccursWithout(jobs, i, x);
      }
      AnyOrderCounts(c, Without(jobs, i), n - 1);
    }
  }

  lemma {:induction false} NoInterruptNoExit(c: Config, s: State, run: seq<Label>)
    requires ValidConfig(c) && Run(c, s, run).Reached? && !s.exit && Interrupt !in run
    ensures !Run(c, s, run).state.exit
    decreases |run|
  {
    if run != [] { NoInterruptNoExit(c, Next(c, s, run[0]), run[1..]); }
  }

  /** Without an interrupt, all finished interleavings report the same counters: those of running
      the jobs in sequence. */
  lemma {:induction false} InterleavingDoesNotMatter(c: Config, run: seq<Label>)
    requires ValidConfig(c) && Run(c, Init(c), run).Reached? && Interrupt !in run
    requires Run(c, Init(c), run).state.main == Finished
    ensures Run(c, Init(c), run).state.tally == SequentialTally(c, |c.skip|)
    ensures ReportsJobs(c, |c.skip|, Run(c, Init(c), run).state.tally)
  {
    SequentialReports(c, |c.skip|);
    InitKeeps(c);
    RunKeeps(c, Init(c), run);
    NoInterruptNoExit(c, Init(c), run);
    var s := Run(c, Init(c), run).state;
    DeliveredOnce(c, s);
    AnyOrderCounts(c, s.collected, |c.skip|);
  }

  // ---------- After an interrupt ----------

  function RunningNow(ws: seq<Worker>): nat
    decreases |ws|
  {
    if ws == [] then 0 else RunningNow(ws[1..]) + if ws[0].Running? then 1 else 0
  }

  lemma {:induction false} RunningSet(ws: seq<Worker>, w: nat, y: Worker)
    requires w < |ws|
    ensures RunningNow(ws[w := y]) + (if ws[w].Running? then 1 else 0) == RunningNow(ws) + (if y.Running? then 1 else 0)
    ensures RunningNow(ws) <= |ws|
    decreases |ws|
  {
    if w == 0 {
      assert ws[w := y][1..] == ws[1..];
      if |ws| > 1 { RunningSet(ws[1..], 0, ws[1]); }
    } else {
      RunningSet(ws[1..], w - 1, y);
      assert ws[w := y][1..] == ws[1..][w - 1 := y];
    }
  }

  function Finishes(run: seq<Label>): nat
    decreases |run|
  {
    if run == [] then 0 else Finishes(run[1..]) + if run[0].Finish? then 1 else 0
  }

  lemma {:induction false} StepStartsNothing(c: Config, s: State, l: Label)
    requires Inv(c, s) && s.exit && Enabled(c, s, l)
    ensures Next(c, s, l).exit
    ensures (if l.Finish? then 1 else 0) + RunningNow(Next(c, s, l).workers) == RunningNow(s.workers)
  {
    var t := Next(c, s, l);
    match l {
      case Spawn => RunningSet(s.workers, s.main.k, Idle);
      case Get(w) => RunningSet(s.workers, w, t.workers[w]);
      case Check(w) => RunningSet(s.workers, w, t.workers[w]);
      case Finish(w) => RunningSet(s.workers, w, t.workers[w]);
      case Put(w) => RunningSet(s.workers, w, t.workers[w]);
      case _ => assert t.workers == s.workers;
    }
  }

  /** Once thread_exit is set no job is started any more: the jobs that still finish are those
      that were running at that moment, at most one per worker. */
  lemma {:induction false} NothingStartsAfterInterrupt(c: Config, s: State, run: seq<Label>)
    requires Inv(c, s) && s.exit && Run(c, s, run).Reached?
    ensures Finishes(run) + RunningNow(Run(c, s, run).state.workers) == RunningNow(s.workers) <= c.processors
    decreases |run|
  {
    assert |s.workers| == c.processors >= 1;
    RunningSet(s.workers, 0, s.workers[0]);
    if run != [] {
      hide Inv, Enabled, Next;
      StepStartsNothing(c, s, run[0]);
      StepKeeps(c, s, run[0]);
      NothingStartsAfterInterrupt(c, Next(c, s, run[0]), run[1..]);
    }
  }

  /** The worker has a job that runs or has run, or is skipped, and was not interrupted. */
  function RealHand(w: Worker): nat { if (w.Running? || w.Posting?) && !w.job.isBreak then 1 else 0 }

  function RealHands(ws: seq<Worker>): nat
    decreases |ws|
  {
    if ws == [] then 0 else RealHands(ws[1..]) + RealHand(ws[0])
  }

  lemma {:induction false} RealSet(ws: seq<Worker>, w: nat, y: Worker)
    requires w < |ws|
    ensures RealHands(ws[w := y]) + RealHand(ws[w]) == RealHands(ws) + RealHand(y)
    decreases |ws|
  {
    if w == 0 {
      assert ws[w := y][1..] == ws[1..];
    } else {
      RealSet(ws[1..], w - 1, y);
      assert ws[w := y][1..] == ws[1..][w - 1 := y];
    }
  }

  lemma {:induction false} InterruptedFront(jobs: seq<Job>)
    requires jobs != []
    ensures Interrupted(jobs) == Interrupted(jobs[1..]) + if jobs[0].isBreak then 1 else 0
    ensures Interrupted(jobs) <= |jobs|
    decreases |jobs|
  {
    var n := |jobs| - 1;
    if n > 0 {
      InterruptedFront(jobs[..n]);
      assert jobs[..n][1..] == jobs[1..][..n - 1];
    }
  }

  /** The results, taken, waiting or about to be put, that are not marked as interrupted. */
  function RealResults(s: State): int {
    |s.collected| - Interrupted(s.collected) + |s.output| - Interrupted(s.output) + RealHands(s.workers)
  }

  /** Worker w changes and perhaps puts a result. */
  lemma {:induction false} HandKeepsReal(c: Config, s: State, w: nat, l: Label)
    requires Inv(c, s) && s.exit && Enabled(c, s, l) && (l == Get(w) || l == Check(w) || l == Finish(w) || l == Put(w))
    ensures var t := Next(c, s, l);
      && t.workers == s.workers[w := t.workers[w]] && t.collected == s.collected
      && RealHand(t.workers[w]) + |t.output| - Interrupted(t.output)
         == RealHand(s.workers[w]) + |s.output| - Interrupted(s.output)
  {
    assert GoodWorker(c, s, s.workers[w]);
    hide Inv, InHands, ExitedOn, Busy, Gone;
    if l.Put? {
      assert Next(c, s, l).output[..|s.output|] == s.output;
    }
  }

  lemma {:induction false} MoveKeepsReal(c: Config, s: State, l: Label)
    requires Inv(c, s) && s.exit && Enabled(c, s, l) && (Moves(l) || l.Dispatch? || l.DispatchBreak?)
    ensures RealResults(Next(c, s, l)) == RealResults(s)
  {
    assert ValidConfig(c);
    hide Inv, Interrupted;
    if l.Spawn? && s.main.k < |s.workers| {
      RealSet(s.workers, s.main.k, Idle);
      SpawnsUnstarted(c, s);
    }
  }

  lemma {:induction false} SpawnsUnstarted(c: Config, s: State)
    requires Inv(c, s) && s.main.Spawning? && s.main.k < |s.workers|
    ensures s.workers[s.main.k].NotStarted?
  {}

  lemma {:induction false} CollectKeepsReal(c: Config, s: State)
    requires Inv(c, s) && s.exit && Enabled(c, s, Collect)
    ensures RealResults(Next(c, s, Collect)) == RealResults(s)
  {
    assert ValidConfig(c);
    hide Inv, RealHands;
    InterruptedFront(s.output);
    assert Next(c, s, Collect).collected[..|s.collected|] == s.collected;
  }

  lemma {:induction false} WorkKeepsReal(c: Config, s: State, w: nat, l: Label)
    requires Inv(c, s) && s.exit && Enabled(c, s, l) && (l == Get(w) || l == Check(w) || l == Finish(w) || l == Put(w))
    ensures RealResults(Next(c, s, l)) == RealResults(s)
  {
    assert ValidConfig(c) && w < |s.workers|;
    hide Inv, Next, Interrupted, RealHands, RealHand;
    HandKeepsReal(c, s, w, l);
    RealSet(s.workers, w, Next(c, s, l).workers[w]);
  }

  lemma {:induction false} ExitStays(c: Config, s: State, l: Label)
    requires ValidConfig(c) && s.exit && Enabled(c, s, l)
    ensures Next(c, s, l).exit
  {}

  lemma {:induction false} StepKeepsReal(c: Config, s: State, l: Label)
    requires Inv(c, s) && s.exit && Enabled(c, s, l)
    ensures Next(c, s, l).exit && RealResults(Next(c, s, l)) == RealResults(s)
  {
    assert ValidConfig(c);
    hide Inv, Next, Enabled, RealResults;
    ExitStays(c, s, l);
    match l
    case Collect => CollectKeepsReal(c, s);
    case Get(w) => WorkKeepsReal(c, s, w, l);
    case Check(w) => WorkKeepsReal(c, s, w, l);
    case Finish(w) => WorkKeepsReal(c, s, w, l);
    case Put(w) => WorkKeepsReal(c, s, w, l);
    case _ => MoveKeepsReal(c, s, l);
  }

  /** Once thread_exit is set, every job that no worker has looked at yet comes back interrupted:
      the results that are not are those there were, or were on their way, at that moment. */
  lemma {:induction false} LaterJobsInterrupted(c: Config, s: State, run: seq<Label>)
    requires Inv(c, s) && s.exit && Run(c, s, run).Reached?
    ensures RealResults(Run(c, s, run).state) == RealResults(s)
    decreases |run|
  {
    hide Inv, Enabled, Next;
    if run != [] {
      StepKeepsReal(c, s, run[0]);
      StepKeeps(c, s, run[0]);
      LaterJobsInterrupted(c, Next(c, s, run[0]), run[1..]);
    }
  }

  // ---------- The collecting loop as run_tests writes it ----------

  /** The loop over the results, and the return value computed from its counters. */
  method CollectResults(results: seq<Job>) returns (t: Tally, status: int)
    ensures t == TallyOf(results) && Reports(results, t)
    ensures Sum(t) + Interrupted(results) == |results|
    ensures status == 0 <==> AllFine(results)
    ensures status == 0 || status == 1
  {
    var passedTests, failedTests, crashedTests, valgrindErrors, skippedTests := 0, 0, 0, 0, 0;
    for i := 0 to |results|
      invariant Tally(passedTests, failedTests, valgrindErrors, crashedTests, skippedTests) == TallyOf(results[..i])
    {
      assert results[..i + 1][..i] == results[..i];
      var job := results[i];
      if job.isBreak { continue; }
      if job.isSkip {
        skippedTests := skippedTests + 1;
      } else if job.returncode == 0 {
        passedTests := passedTests + 1;
      } else if job.returncode == 1 {
        failedTests := failedTests + 1;
      } else if job.returncode == 2 {
        valgrindErrors := valgrindErrors + 1;
      } else {
        crashedTests := crashedTests + 1;
      }
    }
    assert results[..|results|] == results;
    TallyAddsUp(results);
    TallyReports(results);
    t := Tally(passedTests, failedTests, valgrindErrors, crashedTests, skippedTests);
    status := if passedTests + skippedTests == |results| then 0 else 1;
  }
}
