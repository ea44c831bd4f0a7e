/**
 The dispatcher and worker threads of ns-3/test.py as a transition system.

 run_tests starts the workers, puts every job and then one break job per worker on the input
 queue, takes as many results from the output queue as it dispatched jobs, and joins the
 workers.  The interrupt handler may set thread_exit at any moment.  A label is one atomic step
 of one thread, so a run of labels is an interleaving.
 */
module WorkerProtocol {

  // ---------- Jobs, threads and states ----------

  /** Jobs are numbered in the order in which they are put on the input queue. */
  datatype Job = Job(id: nat, isBreak: bool, isSkip: bool, returncode: int)

  /** Where a worker is: before start(); about to get; past the get with a job that is no break;
      running a job; about to put a job; returned after a break job. */
  datatype Worker = NotStarted | Idle | Got(job: Job) | Running(job: Job) | Posting(job: Job) | Exited(job: Job)

  /** Where run_tests is, with its loop counter. */
  datatype Main = Spawning(k: nat) | Dispatching(k: nat) | Breaking(k: nat) | Collecting(k: nat) | Joining(k: nat) | Finished

  datatype Tally = Tally(passed: nat, failed: nat, valgrind: nat, crashed: nat, skipped: nat)

  /** collected is a record of what the collector has taken from the output queue. */
  datatype State = State(main: Main, workers: seq<Worker>, input: seq<Job>, output: seq<Job>, exit: bool,
                         collected: seq<Job>, tally: Tally)

  /** Which jobs are to be skipped, and the return code each job has if it is run. */
  datatype Config = Config(processors: nat, skip: seq<bool>, code: seq<int>)

  predicate ValidConfig(c: Config) {
    c.processors >= 1 && |c.skip| == |c.code|
  }

  datatype Label =
    | Spawn | Dispatch | DispatchBreak | Advance | Collect | Join
    | Get(w: nat) | Check(w: nat) | Finish(w: nat) | Put(w: nat)
    | Interrupt

  function Init(c: Config): State {
    State(Spawning(0), seq(c.processors, _ => NotStarted), [], [], false, [], Tally(0, 0, 0, 0, 0))
  }

  // ---------- Steps ----------

  predicate Enabled(c: Config, s: State, l: Label)
    requires ValidConfig(c)
  {
    match l
    case Spawn => s.main.Spawning? && s.main.k < c.processors
    case Dispatch => s.main.Dispatching? && s.main.k < |c.skip|
    case DispatchBreak => s.main.Breaking? && s.main.k < c.processors
    case Advance =>
      (s.main.Spawning? && s.main.k >= c.processors) || (s.main.Dispatching? && s.main.k >= |c.skip|)
      || (s.main.Breaking? && s.main.k >= c.processors) || (s.main.Collecting? && s.main.k >= |c.skip|)
      || (s.main.Joining? && s.main.k >= c.processors)
    case Collect => s.main.Collecting? && s.main.k < |c.skip| && s.output != []
    case Join => s.main.Joining? && s.main.k < |s.workers| && s.workers[s.main.k].Exited?
    case Get(w) => w < |s.workers| && s.workers[w].Idle? && s.input != []
    case Check(w) => w < |s.workers| && s.workers[w].Got?
    case Finish(w) => w < |s.workers| && s.workers[w].Running? && s.workers[w].job.id < |c.code|
    case Put(w) => w < |s.workers| && s.workers[w].Posting?
    case Interrupt => true
  }

  function NextPhase(m: Main): Main {
    match m
    case Spawning(_) => Dispatching(0)
    case Dispatching(_) => Breaking(0)
    case Breaking(_) => Collecting(0)
    case Collecting(_) => Joining(0)
    case _ => Finished
  }

  /** The counters of run_tests after one more result. */
  function Count(t: Tally, job: Job): Tally {
    if job.isBreak then t
    else if job.isSkip then t.(skipped := t.skipped + 1)
    else if job.returncode == 0 then t.(passed := t.passed + 1)
    else if job.returncode == 1 then t.(failed := t.failed + 1)
    else if job.returncode == 2 then t.(valgrind := t.valgrind + 1)
    else t.(crashed := t.crashed + 1)
  }

  function SetWorker(s: State, w: nat, x: Worker): State
    requires w < |s.workers|
  {
    s.(workers := s.workers[w := x])
  }

  function Next(c: Config, s: State, l: Label): State
    requires ValidConfig(c) && Enabled(c, s, l)
  {
    match l
    case Spawn =>
      var t := if s.main.k < |s.workers| then SetWorker(s, s.main.k, Idle) else s;
      t.(main := Spawning(s.main.k + 1))
    case Dispatch =>
      s.(main := Dispatching(s.main.k + 1), input := s.input + [Job(s.main.k, false, c.skip[s.main.k], 0)])
    case DispatchBreak =>
      s.(main := Breaking(s.main.k + 1), input := s.input + [Job(|c.skip| + s.main.k, true, false, 0)])
    case Advance => s.(main := NextPhase(s.main))
    case Collect =>
      var job := s.output[0];
      s.(main := Collecting(s.main.k + 1), output := s.output[1..], collected := s.collected + [job],
         tally := Count(s.tally, job))
    case Join => s.(main := Joining(s.main.k + 1))
    case Get(w) =>
      var job := s.input[0];
      SetWorker(s.(input := s.input[1..]), w, if job.isBreak then Exited(job) else Got(job))
    case Check(w) =>
      var job := s.workers[w].job;
      SetWorker(s, w, if s.exit then Posting(job.(isBreak := true)) else if job.isSkip then Posting(job) else Running(job))
    case Finish(w) =>
      var job := s.workers[w].job;
      SetWorker(s, w, Posting(job.(returncode := c.code[job.id])))
    case Put(w) => SetWorker(s, w, Idle).(output := s.output + [s.workers[w].job])
    case Interrupt => s.(exit := true)
  }

  /** The state after a sequence of labels, None if one of them is not enabled. */
  datatype MaybeState = Reached(state: State) | Stuck

  function Run(c: Config, s: State, run: seq<Label>): MaybeState
    requires ValidConfig(c)
    decreases |run|
  {
    if run == [] then Reached(s)
    else if Enabled(c, s, run[0]) then Run(c, Next(c, s, run[0]), run[1..])
    else Stuck
  }

  // ---------- The invariant ----------

  /** How many jobs, breaks included, have been put on the input queue. */
  function Issued(c: Config, m: Main): nat {
    match m
    case Spawning(_) => 0
    case Dispatching(k) => k
    case Breaking(k) => |c.skip| + k
    case _ => |c.skip| + c.processors
  }

  /** How many of them have been taken off it. */
  function Taken(c: Config, s: State): int { Issued(c, s.main) - |s.input| }

  function Min(a: int, b: int): int { if a < b then a else b }
  function Max(a: int, b: int): int { if a < b then b else a }

  /** How many of the jobs have number x. */
  function Occurs(jobs: seq<Job>, x: nat): nat
    decreases |jobs|
  {
    if jobs == [] then 0 else Occurs(jobs[..|jobs| - 1], x) + if jobs[|jobs| - 1].id == x then 1 else 0
  }

  predicate Holding(w: Worker) { w.Got? || w.Running? || w.Posting? }

  function Holds(w: Worker, x: nat): nat { if Holding(w) && w.job.id == x then 1 else 0 }
  function ExitsOn(w: Worker, x: nat): nat { if w.Exited? && w.job.id == x then 1 else 0 }

  /** How many workers hold job x, and how many have returned on taking job x. */
  function InHands(ws: seq<Worker>, x: nat): nat
    decreases |ws|
  {
    if ws == [] then 0 else InHands(ws[1..], x) + Holds(ws[0], x)
  }

  function ExitedOn(ws: seq<Worker>, x: nat): nat
    decreases |ws|
  {
    if ws == [] then 0 else ExitedOn(ws[1..], x) + ExitsOn(ws[0], x)
  }

  /** How many workers hold a job, and how many have returned. */
  function Busy(ws: seq<Worker>): nat
    decreases |ws|
  {
    if ws == [] then 0 else Busy(ws[1..]) + if Holding(ws[0]) then 1 else 0
  }

  function Gone(ws: seq<Worker>): nat
    decreases |ws|
  {
    if ws == [] then 0 else Gone(ws[1..]) + if ws[0].Exited? then 1 else 0
  }

  /** A real job as it should look: its skip mark, no break mark unless it may have one, and the
      right return code if it is past running. */
  predicate GoodJob(c: Config, j: Job) {
    j.id < |c.skip| == |c.code| && j.isSkip == c.skip[j.id]
  }

  predicate GoodResult(c: Config, s: State, j: Job) {
    GoodJob(c, j) && (j.isBreak ==> s.exit) && (!j.isBreak && !j.isSkip ==> j.returncode == c.code[j.id])
  }

  predicate GoodWorker(c: Config, s: State, w: Worker) {
    match w
    case Got(j) => GoodJob(c, j) && !j.isBreak
    case Running(j) => GoodJob(c, j) && !j.isBreak && !j.isSkip
    case Posting(j) => GoodResult(c, s, j)
    case Exited(j) => j.isBreak && j.id >= |c.skip|
    case _ => true
  }

  /** The queue holds the last jobs issued, in order: real ones unmarked, then breaks. */
  predicate GoodInput(c: Config, s: State) {
    && Taken(c, s) >= 0
    && forall i :: 0 <= i < |s.input| ==>
      var j := s.input[i];
      j.id == Taken(c, s) + i && (j.isBreak <==> j.id >= |c.skip|) && (!j.isBreak ==> GoodJob(c, j))
  }

  predicate GoodMain(c: Config, s: State) {
    match s.main
    case Spawning(k) => k <= c.processors && (forall i :: 0 <= i < |s.workers| ==> (s.workers[i].NotStarted? <==> i >= k))
    case Dispatching(k) => k <= |c.skip|
    case Breaking(k) => k <= c.processors
    case Collecting(k) => k <= |c.skip|
    case Joining(k) => k <= c.processors && forall i :: 0 <= i < k && i < |s.workers| ==> s.workers[i].Exited?
    case Finished => forall i :: 0 <= i < |s.workers| ==> s.workers[i].Exited?
  }

  predicate GoodCollected(c: Config, s: State) {
    && |s.collected| == (match s.main case Collecting(k) => k case Joining(_) => |c.skip| case Finished => |c.skip| case _ => 0)
    && s.tally == TallyOf(s.collected)
  }

  function TallyOf(jobs: seq<Job>): Tally
    decreases |jobs|
  {
    if jobs == [] then Tally(0, 0, 0, 0, 0) else Count(TallyOf(jobs[..|jobs| - 1]), jobs[|jobs| - 1])
  }

  predicate Shape(c: Config, s: State) {
    && |s.workers| == c.processors
    && (!s.main.Spawning? ==> forall i :: 0 <= i < |s.workers| ==> !s.workers[i].NotStarted?)
    && GoodMain(c, s) && GoodInput(c, s) && GoodCollected(c, s)
    && (forall i :: 0 <= i < |s.workers| ==> GoodWorker(c, s, s.workers[i]))
    && (forall i :: 0 <= i < |s.output| ==> GoodResult(c, s, s.output[i]))
    && (forall i :: 0 <= i < |s.collected| ==> GoodResult(c, s, s.collected[i]))
  }

  /** Every real job taken off the input queue is in exactly one hand, or once on the output queue,
      or once among the collected ones. */
  ghost predicate RealOnce(c: Config, s: State) {
    forall x: nat ::
      InHands(s.workers, x) + Occurs(s.output, x) + Occurs(s.collected, x)
      == if x < Min(Taken(c, s), |c.skip|) then 1 else 0
  }

  /** Every break taken off the input queue has made one worker return. */
  ghost predicate BreakOnce(c: Config, s: State) {
    forall x: nat :: ExitedOn(s.workers, x) == if |c.skip| <= x < Taken(c, s) then 1 else 0
  }

  /** The same in total numbers. */
  predicate Totals(c: Config, s: State) {
    && Busy(s.workers) + |s.output| + |s.collected| == Min(Taken(c, s), |c.skip|)
    && Gone(s.workers) == Max(0, Taken(c, s) - |c.skip|)
  }

  ghost predicate Balance(c: Config, s: State) {
    RealOnce(c, s) && BreakOnce(c, s) && Totals(c, s)
  }

  ghost predicate Inv(c: Config, s: State) {
    ValidConfig(c) && Shape(c, s) && Balance(c, s)
  }

  // ---------- Lemmas about the counting functions ----------

  lemma {:induction false} OccursPush(jobs: seq<Job>, j: Job)
    ensures forall x: nat :: Occurs(jobs + [j], x) == Occurs(jobs, x) + if j.id == x then 1 else 0
  {
    assert (jobs + [j])[..|jobs|] == jobs;
  }

  lemma {:induction false} OccursFront(jobs: seq<Job>, x: nat)
    requires jobs != []
    ensures Occurs(jobs, x) == Occurs(jobs[1..], x) + if jobs[0].id == x then 1 else 0
    decreases |jobs|
  {
    var n := |jobs| - 1;
    if n > 0 {
      OccursFront(jobs[..n], x);
      assert jobs[..n][1..] == jobs[1..][..n - 1];
    }
  }

  lemma {:induction false} WorkerSet(ws: seq<Worker>, w: nat, y: Worker, x: nat)
    requires w < |ws|
    ensures InHands(ws[w := y], x) + Holds(ws[w], x) == InHands(ws, x) + Holds(y, x)
    ensures ExitedOn(ws[w := y], x) + ExitsOn(ws[w], x) == ExitedOn(ws, x) + ExitsOn(y, x)
    decreases |ws|
  {
    if w == 0 {
      assert ws[w := y][1..] == ws[1..];
    } else {
      WorkerSet(ws[1..], w - 1, y, x);
      assert ws[w := y][1..] == ws[1..][w - 1 := y];
    }
  }

  lemma {:induction false} TotalsSet(ws: seq<Worker>, w: nat, y: Worker)
    requires w < |ws|
    ensures Busy(ws[w := y]) + (if Holding(ws[w]) then 1 else 0) == Busy(ws) + (if Holding(y) then 1 else 0)
    ensures Gone(ws[w := y]) + (if ws[w].Exited? then 1 else 0) == Gone(ws) + (if y.Exited? then 1 else 0)
    decreases |ws|
  {
    if w == 0 {
      assert ws[w := y][1..] == ws[1..];
    } else {
      TotalsSet(ws[1..], w - 1, y);
      assert ws[w := y][1..] == ws[1..][w - 1 := y];
    }
  }

  lemma {:induction false} NobodyHolds(ws: seq<Worker>, x: nat)
    requires forall i :: 0 <= i < |ws| ==> ws[i].NotStarted?
    ensures InHands(ws, x) == 0 && ExitedOn(ws, x) == 0 && Busy(ws) == 0 && Gone(ws) == 0
    decreases |ws|
  {
    if ws != [] { NobodyHolds(ws[1..], x); }
  }

  /** A worker that neither holds a job nor has returned leaves a gap. */
  lemma {:induction false} Gap(ws: seq<Worker>, i: nat)
    requires i < |ws| && !Holding(ws[i]) && !ws[i].Exited?
    ensures Busy(ws) + Gone(ws) < |ws|
    decreases |ws|
  {
    AtMostAll(ws[1..]);
    if i > 0 { Gap(ws[1..], i - 1); }
  }

  lemma {:induction false} AtMostAll(ws: seq<Worker>)
    ensures Busy(ws) + Gone(ws) <= |ws|
    decreases |ws|
  {
    if ws != [] { AtMostAll(ws[1..]); }
  }

  lemma {:induction false} BusyHasHolder(ws: seq<Worker>) returns (i: nat)
    requires Busy(ws) > 0
    ensures i < |ws| && Holding(ws[i])
    decreases |ws|
  {
    if Holding(ws[0]) { return 0; }
    i := BusyHasHolder(ws[1..]);
    i := i + 1;
  }

  lemma {:induction false} GoneHasExited(ws: seq<Worker>, i: nat)
    requires i < |ws| && ws[i].Exited?
    ensures Gone(ws) > 0
    decreases |ws|
  {
    if i > 0 { GoneHasExited(ws[1..], i - 1); }
  }

  // ---------- Every step keeps the invariant ----------

  lemma {:induction false} InitKeeps(c: Config)
    requires ValidConfig(c)
    ensures Inv(c, Init(c))
  {
    forall x: nat
      ensures InHands(Init(c).workers, x) == 0 && ExitedOn(Init(c).workers, x) == 0
    {
      NobodyHolds(Init(c).workers, x);
    }
    NobodyHolds(Init(c).workers, 0);
  }

  /** Changing one worker. */
  lemma {:induction false} WorkersChange(ws: seq<Worker>, w: nat, y: Worker)
    requires w < |ws|
    ensures forall x: nat :: InHands(ws[w := y], x) + Holds(ws[w], x) == InHands(ws, x) + Holds(y, x)
    ensures forall x: nat :: ExitedOn(ws[w := y], x) + ExitsOn(ws[w], x) == ExitedOn(ws, x) + ExitsOn(y, x)
    ensures Busy(ws[w := y]) + (if Holding(ws[w]) then 1 else 0) == Busy(ws) + (if Holding(y) then 1 else 0)
    ensures Gone(ws[w := y]) + (if ws[w].Exited? then 1 else 0) == Gone(ws) + (if y.Exited? then 1 else 0)
  {
    forall x: nat
      ensures InHands(ws[w := y], x) + Holds(ws[w], x) == InHands(ws, x) + Holds(y, x)
      ensures ExitedOn(ws[w := y], x) + ExitsOn(ws[w], x) == ExitedOn(ws, x) + ExitsOn(y, x)
    {
      WorkerSet(ws, w, y, x);
    }
    TotalsSet(ws, w, y);
  }

  /** Workers and results that were good are good after an interrupt or without one. */
  lemma {:induction false} StaysGood(c: Config, s: State, t: State)
    requires s.exit ==> t.exit
    ensures forall w :: GoodWorker(c, s, w) ==> GoodWorker(c, t, w)
    ensures forall j :: GoodResult(c, s, j) ==> GoodResult(c, t, j)
  {}

  predicate Moves(l: Label) { l.Spawn? || l.Advance? || l.Join? || l.Interrupt? }

  lemma {:induction false} MoveKeepsShape(c: Config, s: State, l: Label)
    requires ValidConfig(c) && Shape(c, s) && Enabled(c, s, l) && Moves(l)
    ensures Shape(c, Next(c, s, l)) && Taken(c, Next(c, s, l)) == Taken(c, s)
  {
    var t := Next(c, s, l);
    assert t.collected == s.collected && t.output == s.output && t.tally == s.tally && t.input == s.input;
    StaysGood(c, s, t);
    assert GoodWorker(c, t, Idle);
    hide GoodWorker, GoodResult, GoodJob;
  }

  lemma {:induction false} QueueKeepsShape(c: Config, s: State, l: Label)
    requires ValidConfig(c) && Shape(c, s) && Enabled(c, s, l) && (l.Dispatch? || l.DispatchBreak?)
    ensures Shape(c, Next(c, s, l)) && Taken(c, Next(c, s, l)) == Taken(c, s)
  {
    var t := Next(c, s, l);
    assert t.collected == s.collected && t.output == s.output && t.tally == s.tally && t.workers == s.workers;
    assert t.input[..|s.input|] == s.input;
    StaysGood(c, s, t);
    assert GoodInput(c, t);
    hide GoodWorker, GoodResult, GoodJob, GoodInput;
  }

  lemma {:induction false} MainKeeps(c: Config, s: State, l: Label)
    requires Inv(c, s) && Enabled(c, s, l) && (Moves(l) || l.Dispatch? || l.DispatchBreak?)
    ensures Inv(c, Next(c, s, l))
  {
    if Moves(l) {
      MoveKeepsShape(c, s, l);
    } else {
      QueueKeepsShape(c, s, l);
    }
    hide Shape;
    if l.Spawn? {
      WorkersChange(s.workers, s.main.k, Idle);
    }
  }

  lemma {:induction false} CollectKeeps(c: Config, s: State)
    requires Inv(c, s) && Enabled(c, s, Collect)
    ensures Inv(c, Next(c, s, Collect))
  {
    var t := Next(c, s, Collect);
    assert t.collected[..|s.collected|] == s.collected;
    forall x: nat
      ensures Occurs(t.output, x) + Occurs(t.collected, x) == Occurs(s.output, x) + Occurs(s.collected, x)
    {
      OccursFront(s.output, x);
    }
  }

  lemma {:induction false} GetKeepsShape(c: Config, s: State, w: nat)
    requires Inv(c, s) && Enabled(c, s, Get(w))
    ensures Shape(c, Next(c, s, Get(w))) && Taken(c, Next(c, s, Get(w))) == Taken(c, s) + 1
  {
    var t := Next(c, s, Get(w));
    assert GoodInput(c, t);
    assert t.collected == s.collected && t.output == s.output && t.tally == s.tally && t.main == s.main;
    StaysGood(c, s, t);
    assert GoodWorker(c, t, t.workers[w]);
    hide GoodWorker, GoodResult, GoodJob, GoodInput, Balance;
  }

  /** What happens to the balance when worker w changes from one state to another. */
  lemma {:induction false} WorkerKeepsBalance(c: Config, s: State, t: State, w: nat)
    requires Balance(c, s) && w < |s.workers| == |t.workers| && t.workers == s.workers[w := t.workers[w]]
    requires t.collected == s.collected && Taken(c, t) >= Taken(c, s)
    requires forall x: nat ::
      Holds(t.workers[w], x) + Occurs(t.output, x) + (if x < Min(Taken(c, s), |c.skip|) then 1 else 0)
      == Holds(s.workers[w], x) + Occurs(s.output, x) + (if x < Min(Taken(c, t), |c.skip|) then 1 else 0)
    requires forall x: nat ::
      ExitsOn(t.workers[w], x) + (if |c.skip| <= x < Taken(c, s) then 1 else 0)
      == ExitsOn(s.workers[w], x) + (if |c.skip| <= x < Taken(c, t) then 1 else 0)
    requires (if Holding(t.workers[w]) then 1 else 0) + |t.output| + Min(Taken(c, s), |c.skip|)
      == (if Holding(s.workers[w]) then 1 else 0) + |s.output| + Min(Taken(c, t), |c.skip|)
    requires (if t.workers[w].Exited? then 1 else 0) + Max(0, Taken(c, s) - |c.skip|)
      == (if s.workers[w].Exited? then 1 else 0) + Max(0, Taken(c, t) - |c.skip|)
    ensures Balance(c, t)
  {
    WorkersChange(s.workers, w, t.workers[w]);
  }

  lemma {:induction false} GetKeeps(c: Config, s: State, w: nat)
    requires Inv(c, s) && Enabled(c, s, Get(w))
    ensures Inv(c, Next(c, s, Get(w)))
  {
    GetKeepsShape(c, s, w);
    assert s.input[0].id == Taken(c, s);
    WorkerKeepsBalance(c, s, Next(c, s, Get(w)), w);
  }

  /** A worker with a job goes on with it, and at most the output queue grows by a good result. */
  lemma {:induction false} HandKeepsShape(c: Config, s: State, t: State, w: nat)
    requires Shape(c, s) && w < |s.workers| == |t.workers| && Holding(s.workers[w])
    requires t.workers == s.workers[w := t.workers[w]] && t == s.(workers := t.workers, output := t.output)
    requires !t.workers[w].NotStarted? && GoodWorker(c, s, t.workers[w])
    requires forall i :: 0 <= i < |t.output| ==> GoodResult(c, s, t.output[i])
    ensures Shape(c, t) && Taken(c, t) == Taken(c, s)
  {
    StaysGood(c, s, t);
    hide GoodWorker, GoodResult;
  }

  lemma {:induction false} CheckKeepsShape(c: Config, s: State, w: nat)
    requires ValidConfig(c) && Shape(c, s) && Enabled(c, s, Check(w))
    ensures Shape(c, Next(c, s, Check(w))) && Taken(c, Next(c, s, Check(w))) == Taken(c, s)
  {
    assert GoodWorker(c, s, s.workers[w]);
    var t := Next(c, s, Check(w));
    assert GoodWorker(c, s, t.workers[w]);
    hide Shape;
    HandKeepsShape(c, s, t, w);
  }

  lemma {:induction false} FinishKeepsShape(c: Config, s: State, w: nat)
    requires ValidConfig(c) && Shape(c, s) && Enabled(c, s, Finish(w))
    ensures Shape(c, Next(c, s, Finish(w))) && Taken(c, Next(c, s, Finish(w))) == Taken(c, s)
  {
    assert GoodWorker(c, s, s.workers[w]);
    var t := Next(c, s, Finish(w));
    assert GoodWorker(c, s, t.workers[w]);
    hide Shape;
    HandKeepsShape(c, s, t, w);
  }

  lemma {:induction false} PutKeepsShape(c: Config, s: State, w: nat)
    requires ValidConfig(c) && Shape(c, s) && Enabled(c, s, Put(w))
    ensures Shape(c, Next(c, s, Put(w))) && Taken(c, Next(c, s, Put(w))) == Taken(c, s)
  {
    assert GoodWorker(c, s, s.workers[w]);
    var t := Next(c, s, Put(w));
    assert forall i :: 0 <= i < |t.output| ==> GoodResult(c, s, t.output[i]);
    hide Shape;
    HandKeepsShape(c, s, t, w);
  }

  lemma {:induction false} WorkKeeps(c: Config, s: State, w: nat, l: Label)
    requires Inv(c, s) && Enabled(c, s, l) && (l == Check(w) || l == Finish(w) || l == Put(w))
    ensures Inv(c, Next(c, s, l))
  {
    match l {
      case Check(w) => CheckKeepsShape(c, s, w);
      case Finish(w) => FinishKeepsShape(c, s, w);
      case Put(w) =>
        PutKeepsShape(c, s, w);
        OccursPush(s.output, s.workers[w].job);
    }
    hide Shape, Balance, InHands, ExitedOn, Busy, Gone;
    WorkerKeepsBalance(c, s, Next(c, s, l), w);
  }

  lemma {:induction false} StepKeeps(c: Config, s: State, l: Label)
    requires Inv(c, s) && Enabled(c, s, l)
    ensures Inv(c, Next(c, s, l))
  {
    match l
    case Collect => CollectKeeps(c, s);
    case Get(w) => GetKeeps(c, s, w);
    case Check(w) => WorkKeeps(c, s, w, l);
    case Finish(w) => WorkKeeps(c, s, w, l);
    case Put(w) => WorkKeeps(c, s, w, l);
    case _ => MainKeeps(c, s, l);
  }

  lemma {:induction false} RunKeeps(c: Config, s: State, run: seq<Label>)
    requires Inv(c, s) && Run(c, s, run).Reached?
    ensures Inv(c, Run(c, s, run).state)
    decreases |run|
  {
    if run != [] {
      StepKeeps(c, s, run[0]);
      RunKeeps(c, Next(c, s, run[0]), run[1..]);
    }
  }
}
