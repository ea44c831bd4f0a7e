/**
 Process and file accounting: in every world, a run that returns has waited exactly once for
 every process it started and closed exactly once every file it opened.
 */
module ShellAccount {
  import opened Common
  import opened ShellCmd
  import opened ShellRun

  /** Which processes run and which files are open, the running processes whose standard output
      is a pipe that nobody reads yet, and the lowest unused numbers. */
  datatype Live = Live(running: set<nat>, open: set<nat>, pipes: set<nat>, nextP: nat, nextF: nat)

  const QUIET := Live({}, {}, {}, 0, 0)

  /** A process reads an open file or a pipe that has no reader yet. */
  predicate UsableInput(l: Live, h: Handle) {
    match h
    case PipeFrom(p) => p in l.pipes
    case File(f) => f in l.open
    case _ => true
  }

  predicate UsableOutput(l: Live, h: Handle) {
    match h
    case PipeFrom(_) => false
    case File(f) => f in l.open
    case _ => true
  }

  /** The pipe that h reads. */
  function ReadPipe(h: Handle): set<nat> {
    if h.PipeFrom? then {h.p} else {}
  }

  /** An event is legal if it starts or opens something new, or ends something still there; if a
      started process gets open files and at most a pipe that is there and unread; and if nobody
      waits for a process whose pipe is unread. */
  function ReplayOne(l: Live, e: Event): Option<Live> {
    match e
    case Opened(f, _, _) =>
      if f < l.nextF then None else Some(l.(open := l.open + {f}, nextF := f + 1))
    case Closed(f) => if f !in l.open then None else Some(l.(open := l.open - {f}))
    case Started(p, _, i, o, r, _, _) =>
      if p < l.nextP || !UsableInput(l, i) || !UsableOutput(l, o) || !UsableOutput(l, r) then None
      else Some(l.(running := l.running + {p}, nextP := p + 1,
                   pipes := l.pipes - ReadPipe(i) + if o.NewPipe? then {p} else {}))
    case Waited(p) =>
      if p !in l.running || p in l.pipes then None else Some(l.(running := l.running - {p}))
  }

  /** None if some event is illegal. */
  function ReplayFrom(l: Live, events: seq<Event>): Option<Live>
    decreases |events|
  {
    if events == [] then Some(l)
    else match ReplayOne(l, events[0])
      case None => None
      case Some(l1) => ReplayFrom(l1, events[1..])
  }

  function Replay(events: seq<Event>): Option<Live> {
    ReplayFrom(QUIET, events)
  }

  lemma {:induction false} ReplayConcat(l: Live, a: seq<Event>, b: seq<Event>)
    requires ReplayFrom(l, a).Some?
    ensures ReplayFrom(l, a + b) == ReplayFrom(ReplayFrom(l, a).value, b)
    decreases |a|
  {
    if a == [] {
      assert a + b == b;
    } else {
      ReplayConcat(ReplayOne(l, a[0]).value, a[1..], b);
      assert (a + b)[0] == a[0] && (a + b)[1..] == a[1..] + b;
    }
  }

  lemma {:induction false} ReplayAppend(events: seq<Event>, e: Event)
    requires Replay(events).Some?
    ensures Replay(events + [e]) == ReplayOne(Replay(events).value, e)
  {
    ReplayConcat(QUIET, events, [e]);
    var l := Replay(events).value;
    assert [e][1..] == [];
    if ReplayOne(l, e).Some? {
      assert ReplayFrom(ReplayOne(l, e).value, []).Some?;
    }
  }

  function FileSet(files: seq<Handle>): set<nat> {
    set h | h in files && h.File? :: h.f
  }

  function PidSet(pids: seq<nat>): set<nat> {
    set p | p in pids
  }

  predicate DistinctFiles(files: seq<Handle>) {
    forall i, j :: 0 <= i < j < |files| && files[i].File? ==> files[i] != files[j]
  }

  /** The events so far leave exactly the current group's processes and files alive, and no pipe
      unread but perhaps that of its last process. */
  ghost predicate Accounted(c: Ctx) {
    && Replay(c.events).Some?
    && var l := Replay(c.events).value;
    && l.running == PidSet(c.pids) && l.open == FileSet(c.files)
    && l.pipes <= LastPid(c)
    && l.nextP <= c.np && l.nextF <= c.nf
    && (forall p :: p in l.running ==> p < l.nextP) && (forall f :: f in l.open ==> f < l.nextF)
    && (forall i, j :: 0 <= i < j < |c.pids| ==> c.pids[i] != c.pids[j])
    && DistinctFiles(c.files)
    && forall i :: 0 <= i < |c.files| ==> c.files[i].File? || c.files[i].DevNull?
  }

  function LastPid(c: Ctx): set<nat> {
    if c.pids == [] then {} else {c.pids[|c.pids| - 1]}
  }

  /** Moreover the pipe of the group's last process, if there is one, waits for its reader. */
  ghost predicate Ready(c: Ctx) {
    Accounted(c) && Replay(c.events).value.pipes == LastPid(c)
  }

  /** Moreover no pipe is unread. */
  ghost predicate Settled(c: Ctx) {
    Accounted(c) && Replay(c.events).value.pipes == {}
  }

  /** d has the same processes and the same pipes as c. */
  ghost predicate SamePipes(c: Ctx, d: Ctx)
    requires Accounted(c) && Accounted(d)
  {
    c.pids == d.pids && Replay(c.events).value.pipes == Replay(d.events).value.pipes
  }

  lemma {:induction false} OpenKeepsAccount(w: World, c: Ctx, name: string, writing: bool)
    requires Accounted(c)
    ensures var d := OpenFile(w, c, name, writing).c; Accounted(d) && SamePipes(c, d)
  {
    if !w.openFails(c.nf) {
      ReplayAppend(c.events, Opened(c.nf, name, writing));
      var d := OpenFile(w, c, name, writing).c;
      assert FileSet(d.files) == FileSet(c.files) + {c.nf};
      forall i, j | 0 <= i < j < |d.files| && d.files[i].File?
        ensures d.files[i] != d.files[j]
      {
        assert d.files[i].f in FileSet(c.files);
      }
    }
  }

  lemma {:induction false} OutputKeepsAccount(w: World, c: Ctx, s: Stream)
    requires Accounted(c)
    ensures var d := Output(w, c, s).c; Accounted(d) && SamePipes(c, d)
  {
    if s.ToFile? {
      if IsNullDevice(s.name) {
        var d := Output(w, c, s).c;
        assert FileSet(d.files) == FileSet(c.files);
      } else {
        OpenKeepsAccount(w, c, s.name, true);
      }
    }
  }

  /** Opening more files does not invalidate a handle that is already usable. */
  lemma {:induction false} HandleStaysUsable(w: World, c: Ctx, s: Stream, h: Handle)
    requires Accounted(c)
    ensures Accounted(Output(w, c, s).c)
    ensures var l, m := Replay(c.events).value, Replay(Output(w, c, s).c.events).value;
      (UsableInput(l, h) ==> UsableInput(m, h)) && (UsableOutput(l, h) ==> UsableOutput(m, h))
  {
    OutputKeepsAccount(w, c, s);
    if s.ToFile? && !IsNullDevice(s.name) && !w.openFails(c.nf) {
      ReplayAppend(c.events, Opened(c.nf, s.name, true));
    }
  }

  lemma {:induction false} GotIsUsable(w: World, c: Ctx, s: Stream)
    requires Accounted(c) && Output(w, c, s).Got?
    ensures Accounted(Output(w, c, s).c)
    ensures UsableOutput(Replay(Output(w, c, s).c.events).value, Output(w, c, s).h)
  {
    OutputKeepsAccount(w, c, s);
    if s.ToFile? && !IsNullDevice(s.name) {
      ReplayAppend(c.events, Opened(c.nf, s.name, true));
    }
  }

  /** Standard input is the predecessor's pipe exactly when the group has a process. */
  predicate ReadsLast(c: Ctx, i: Handle) {
    ReadPipe(i) == LastPid(c)
  }

  lemma {:induction false} InputKeepsAccount(w: World, c: Ctx, cmd: Node)
    requires cmd.Command? && Ready(c)
    ensures var r := Input(w, c, cmd);
      && Ready(r.c) && r.c.pids == c.pids
      && (r.Got? ==> UsableInput(Replay(r.c.events).value, r.h) && ReadsLast(c, r.h))
  {
    if c.pids == [] && cmd.stdin.Some? {
      OpenKeepsAccount(w, c, cmd.stdin.value, false);
      ReplayAppend(c.events, Opened(c.nf, cmd.stdin.value, false));
    }
  }

  lemma {:induction false} PopenKeepsAccount(w: World, c: Ctx, cmd: Node, i: Handle, o: Handle, e: Handle)
    requires cmd.Command? && Ready(c) && ReadsLast(c, i)
    requires var l := Replay(c.events).value; UsableInput(l, i) && UsableOutput(l, o) && UsableOutput(l, e)
    ensures var r := Popen(w, c, cmd, i, o, e);
      Accounted(r.c) && (r.Ok? ==> if o.NewPipe? then Ready(r.c) else Settled(r.c))
  {
    if !w.launchFails(c.np) {
      var d := Popen(w, c, cmd, i, o, e).c;
      ReplayAppend(c.events, d.events[|c.events|]);
      assert d.pids[|c.pids|] == c.np;
      assert PidSet(d.pids) == PidSet(c.pids) + {c.np};
    }
  }

  /** In a group that is ready a command finds its predecessor in PIPE state, and leaves the group
      ready or settled by where its own output goes. */
  lemma {:induction false} LaunchKeepsAccount(w: World, c: Ctx, cmd: Node)
    requires cmd.Command? && Ready(c)
    ensures var r := LaunchCommand(w, c, cmd);
      Accounted(r.c) && (r.Ok? ==> if cmd.stdout.ToPipe? then Ready(r.c) else Settled(r.c))
  {
    InputKeepsAccount(w, c, cmd);
    var i := Input(w, c, cmd);
    if i.Got? {
      OutputKeepsAccount(w, i.c, cmd.stdout);
      HandleStaysUsable(w, i.c, cmd.stdout, i.h);
      var o := Output(w, i.c, cmd.stdout);
      if o.Got? {
        GotIsUsable(w, i.c, cmd.stdout);
        OutputKeepsAccount(w, o.c, cmd.stderr);
        HandleStaysUsable(w, o.c, cmd.stderr, i.h);
        HandleStaysUsable(w, o.c, cmd.stderr, o.h);
        var e := Output(w, o.c, cmd.stderr);
        if e.Got? {
          GotIsUsable(w, o.c, cmd.stderr);
          assert o.h.NewPipe? <==> cmd.stdout.ToPipe?;
          PopenKeepsAccount(w, e.c, cmd, i.h, o.h, e.h);
        }
      }
    }
  }

  lemma {:induction false} ChangeDirsKeepsAccount(c: Ctx, dirs: seq<Option<string>>)
    ensures ChangeDirs(c, dirs).c.(cwd := c.cwd) == c
    decreases |dirs|
  {
    if dirs != [] && ChangeDir(c, dirs[0]).Ok? {
      ChangeDirsKeepsAccount(ChangeDir(c, dirs[0]).c, dirs[1..]);
    }
  }

  /** Every command of the group but the last writes to a pipe; the last one does iff open. */
  predicate Piped(group: seq<StageOk>, open: bool) {
    forall i :: 0 <= i < |group| ==> (group[i].cmd.stdout.ToPipe? <==> i + 1 < |group| || open)
  }

  predicate PipedPlan(p: Plan) {
    match p
    case Final(g) => Piped(g, false)
    case Branch(g, _, rest) => Piped(g, false) && PipedPlan(rest)
    case Stuck(g, _) => Piped(g, true)
  }

  lemma {:induction false} LaunchGroupKeepsAccount(w: World, c: Ctx, group: seq<StageOk>, open: bool)
    requires Ready(c) && Piped(group, open)
    ensures var r := LaunchGroup(w, c, group);
      Accounted(r.c) && (r.Ok? && group != [] ==> if open then Ready(r.c) else Settled(r.c))
    decreases |group|
  {
    if group != [] {
      ChangeDirsKeepsAccount(c, group[0].dirs);
      var c1 := ChangeDirs(c, group[0].dirs);
      if c1.Ok? {
        LaunchKeepsAccount(w, c1.c, group[0].cmd);
        var r := LaunchStage(w, c, group[0]);
        if r.Ok? && |group| > 1 {
          LaunchGroupKeepsAccount(w, r.c, group[1..], open);
        }
      }
    }
  }

  /** Waiting for distinct running processes whose pipes are read, one by one. */
  lemma {:induction false} WaitsReplay(l: Live, pids: seq<nat>)
    requires PidSet(pids) <= l.running && PidSet(pids) !! l.pipes
    requires forall i, j :: 0 <= i < j < |pids| ==> pids[i] != pids[j]
    ensures ReplayFrom(l, Waits(pids)) == Some(l.(running := l.running - PidSet(pids)))
    decreases |pids|
  {
    if pids == [] {
      assert l.running - PidSet(pids) == l.running;
    } else {
      var rest := pids[1..];
      assert pids == [pids[0]] + rest;
      assert PidSet(pids) == {pids[0]} + PidSet(rest);
      assert pids[0] !in rest;
      WaitsReplay(l.(running := l.running - {pids[0]}), rest);
      assert Waits(pids)[1..] == Waits(rest);
      assert l.running - PidSet(pids) == l.running - {pids[0]} - PidSet(rest);
    }
  }

  /** Closing distinct open files, one by one; the null device stays as it is. */
  lemma {:induction false} ClosesReplay(l: Live, files: seq<Handle>)
    requires DistinctFiles(files) && FileSet(files) <= l.open
    ensures ReplayFrom(l, Closes(files)) == Some(l.(open := l.open - FileSet(files)))
    decreases |files|
  {
    if files == [] {
      assert l.open - FileSet(files) == l.open;
    } else {
      if files[0].File? {
        var f := files[0].f;
        ClosesReplay(l.(open := l.open - {f}), files[1..]);
        assert Closes(files)[1..] == Closes(files[1..]);
        assert l.open - FileSet(files) == l.open - {f} - FileSet(files[1..]);
      } else {
        assert FileSet(files) == FileSet(files[1..]);
        assert Closes(files) == Closes(files[1..]);
        ClosesReplay(l, files[1..]);
      }
    }
  }

  lemma {:induction false} EndGroupKeepsAccount(c: Ctx)
    requires Settled(c)
    ensures Ready(EndGroup(c))
    ensures var l := Replay(EndGroup(c).events).value; l.running == l.open == l.pipes == {}
  {
    var l := Replay(c.events).value;
    WaitsReplay(l, c.pids);
    var waited := l.(running := l.running - PidSet(c.pids));
    ClosesReplay(waited, c.files);
    ReplayConcat(QUIET, c.events, Waits(c.pids));
    ReplayConcat(QUIET, c.events + Waits(c.pids), Closes(c.files));
  }

  /** Where evaluation stops: the context after the last group, or the one in which a raise
      leaves the group in progress. */
  function Reached(w: World, c: Ctx, p: Plan): Ctx
    requires ProperPlan(p)
    decreases p
  {
    match LaunchGroup(w, c, p.group)
    case Fail(_, c1) => c1
    case Ok(c1) =>
      match p
      case Stuck(_, _) => c1
      case Final(_) => EndGroup(c1)
      case Branch(_, op, rest) =>
        LaunchedSome(w, c, p.group);
        if Proceeds(op, GroupStatus(w, c1)) then Reached(w, EndGroup(c1), rest) else EndGroup(c1)
  }

  /** Every event of a run is legal, whatever the world.  A run that returns leaves nothing behind;
      one that raises leaves exactly the processes and files of the group in progress. */
  lemma {:induction false} EvalBalanced(w: World, c: Ctx, p: Plan)
    requires ProperPlan(p) && PipedPlan(p) && Ready(c)
    ensures var d := Reached(w, c, p);
      && Accounted(d) && Eval(w, c, p).1 == d.events
      && (Eval(w, c, p).0.Returned? ==> d.pids == [] && d.files == [])
    decreases p
  {
    LaunchGroupKeepsAccount(w, c, p.group, p.Stuck?);
    var r := LaunchGroup(w, c, p.group);
    if r.Ok? && !p.Stuck? {
      EndGroupKeepsAccount(r.c);
      if p.Branch? {
        LaunchedSome(w, c, p.group);
        if Proceeds(p.op, GroupStatus(w, r.c)) {
          EvalBalanced(w, EndGroup(r.c), p.rest);
        }
      }
    }
  }

  /** The plan of a parsed list pipes every command of a group into the next. */
  lemma {:induction false} PlanIsPiped(nodes: seq<Node>, i: nat)
    requires WellFormed(nodes) && i < |nodes| && i % 2 == 0
    ensures PipedPlan(PlanFrom(nodes, i))
    decreases |nodes| - i
  {
    assert GoodAt(nodes, i);
    if i + 1 < |nodes| {
      assert GoodAt(nodes, i + 1);
      PlanIsPiped(nodes, i + 2);
      var p := PlanFrom(nodes, i + 2);
      if nodes[i].Chdir? {
        PipedWithDir(nodes[i].dir, p);
      } else if nodes[i + 1].Pipe? {
        PipedCons(Stage([], nodes[i]), p);
      }
    }
  }

  lemma {:induction false} PipedCons(s: StageOk, p: Plan)
    requires ProperPlan(p) && PipedPlan(p) && s.cmd.stdout.ToPipe?
    ensures PipedPlan(p.(group := [s] + p.group))
  {
    var g := [s] + p.group;
    forall i | 0 <= i < |g|
      ensures g[i].cmd.stdout.ToPipe? <==> i + 1 < |g| || p.Stuck?
    {
      if i > 0 {
        assert g[i] == p.group[i - 1];
      }
    }
  }

  lemma {:induction false} PipedWithDir(d: Option<string>, p: Plan)
    requires ProperPlan(p) && PipedPlan(p)
    ensures PipedPlan(WithDir(d, p))
  {
    if p.group != [] {
      var g := WithDir(d, p).group;
      forall i | 0 <= i < |g|
        ensures g[i].cmd == p.group[i].cmd
      {}
      assert |g| == |p.group|;
    }
  }

  // ---------- The same in terms of counting events ----------

  datatype Kind = Starting | Waiting | Opening | Closing

  predicate Matches(e: Event, kind: Kind, n: nat) {
    match kind
    case Starting => e.Started? && e.p == n
    case Waiting => e.Waited? && e.p == n
    case Opening => e.Opened? && e.f == n
    case Closing => e.Closed? && e.f == n
  }

  /** How many events of a kind concern process or file n. */
  function Count(events: seq<Event>, kind: Kind, n: nat): nat
    decreases |events|
  {
    if events == [] then 0 else (if Matches(events[0], kind, n) then 1 else 0) + Count(events[1..], kind, n)
  }

  /** How often process p is started and waited for in a legal sequence of events. */
  lemma {:induction false} ProcessCounts(l: Live, events: seq<Event>, p: nat)
    requires ReplayFrom(l, events).Some? && (p in l.running ==> p < l.nextP)
    ensures var starts := Count(events, Starting, p);
      var waits := Count(events, Waiting, p);
      && (if p in l.running then 1 else 0) + starts
         == waits + (if p in ReplayFrom(l, events).value.running then 1 else 0)
      && starts <= (if p < l.nextP then 0 else 1)
    decreases |events|
  {
    if events != [] {
      ProcessCounts(ReplayOne(l, events[0]).value, events[1..], p);
    }
  }

  lemma {:induction false} FileCounts(l: Live, events: seq<Event>, f: nat)
    requires ReplayFrom(l, events).Some? && (f in l.open ==> f < l.nextF)
    ensures var opens := Count(events, Opening, f);
      var closes := Count(events, Closing, f);
      && (if f in l.open then 1 else 0) + opens
         == closes + (if f in ReplayFrom(l, events).value.open then 1 else 0)
      && opens <= (if f < l.nextF then 0 else 1)
    decreases |events|
  {
    if events != [] {
      FileCounts(ReplayOne(l, events[0]).value, events[1..], f);
    }
  }

  /** In a run of a parsed list that returns, every process started is waited for exactly once,
      every file opened is closed exactly once, and nothing else is waited for or closed. */
  lemma {:induction false} RunAccounts(w: World, tokens: seq<string>, n: nat)
    requires ParseTokens(tokens).Some?
    ensures WellFormed(ParseTokens(tokens).value)
    ensures var (outcome, events) := Eval(w, FRESH, PlanFrom(ParseTokens(tokens).value, 0));
      outcome.Returned? ==>
        && Count(events, Waiting, n) == Count(events, Starting, n) <= 1
        && Count(events, Closing, n) == Count(events, Opening, n) <= 1
  {
    ParsedIsWellFormed(tokens);
    var p := PlanFrom(ParseTokens(tokens).value, 0);
    PlanIsPiped(ParseTokens(tokens).value, 0);
    FreshIsReady();
    EvalBalanced(w, FRESH, p);
    if Eval(w, FRESH, p).0.Returned? {
      ProcessCounts(QUIET, Eval(w, FRESH, p).1, n);
      FileCounts(QUIET, Eval(w, FRESH, p).1, n);
    }
  }

  lemma {:induction false} FreshIsReady()
    ensures Ready(FRESH)
  {}
}
