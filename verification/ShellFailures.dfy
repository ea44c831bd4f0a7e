/**
 Which parsed lists can leave a process or a file behind where opening a file and starting a
 process may fail.
 */
module ShellFailures {
  import opened Common
  import opened ShellCmd
  import opened ShellRun
  import opened ShellAccount
  import opened ShellPosix
  import opened ShellLeaks

  /** Some world makes the plan leave a process, if a group of two or more breaks off. */
  predicate MayLeaveProcess(p: Plan)
    requires ProperPlan(p)
  {
    && p.group != [] && GoodDirs(p.group[0].dirs)
    && (|p.group| > 1 || p.Stuck? || (p.Branch? && MayLeaveProcess(p.rest)))
  }

  /** Some command that can be reached opens a file; process says whether one runs already. */
  predicate GroupMayOpen(g: seq<StageOk>, process: bool)
    decreases |g|
  {
    g != [] && GoodDirs(g[0].dirs) && (Opens(g[0].cmd, process) || GroupMayOpen(g[1..], true))
  }

  predicate MayLeaveFile(p: Plan, process: bool) {
    GroupMayOpen(p.group, process) || (p.Branch? && GoodGroup(p.group) && MayLeaveFile(p.rest, false))
  }

  lemma {:induction false} StreamKeeps(w: World, c: Ctx, s: Stream)
    ensures Output(w, c, s).c.pids == c.pids
    ensures HasFile(Output(w, c, s).c.files) ==> HasFile(c.files) || OpensFile(s)
  {}

  /** A command that fails starts nothing, and only its own redirections open files. */
  lemma {:induction false} LaunchKeeps(w: World, c: Ctx, cmd: Node)
    requires cmd.Command?
    ensures var r := LaunchCommand(w, c, cmd);
      && (r.Ok? ==> r.c.pids != []) && (r.Fail? ==> r.c.pids == c.pids)
      && (HasFile(r.c.files) ==> HasFile(c.files) || Opens(cmd, c.pids != []))
  {
    var i := Input(w, c, cmd);
    if i.Got? {
      StreamKeeps(w, i.c, cmd.stdout);
      var o := Output(w, i.c, cmd.stdout);
      if o.Got? {
        StreamKeeps(w, o.c, cmd.stderr);
      }
    }
  }

  lemma {:induction false} StageKeeps(w: World, c: Ctx, s: StageOk)
    ensures var r := LaunchStage(w, c, s);
      && (r.Ok? ==> r.c.pids != [] && GoodDirs(s.dirs)) && (r.Fail? ==> r.c.pids == c.pids)
      && (HasFile(r.c.files) ==> HasFile(c.files) || (GoodDirs(s.dirs) && Opens(s.cmd, c.pids != [])))
  {
    ChangeDirsOk(c, s.dirs);
    if GoodDirs(s.dirs) {
      LaunchKeeps(w, ChangeDirs(c, s.dirs).c, s.cmd);
    }
  }

  lemma {:induction false} GroupKeeps(w: World, c: Ctx, g: seq<StageOk>)
    ensures var r := LaunchGroup(w, c, g);
      && (r.Ok? ==> GoodGroup(g))
      && (HasFile(r.c.files) ==> HasFile(c.files) || GroupMayOpen(g, c.pids != []))
    decreases |g|
  {
    if g != [] {
      StageKeeps(w, c, g[0]);
      assert g == [g[0]] + g[1..];
      GoodCons(g[0], g[1..]);
      hide LaunchStage, GoodDirs, GoodGroup, HasFile, Opens;
      var r := LaunchStage(w, c, g[0]);
      if r.Ok? {
        GroupKeeps(w, r.c, g[1..]);
      }
    }
  }

  /** Whatever the world, only such plans leave a process or a file. */
  lemma {:induction false} LeavesOnlyIf(w: World, c: Ctx, p: Plan)
    requires ProperPlan(p) && c.pids == [] && c.files == []
    ensures Reached(w, c, p).pids != [] ==> MayLeaveProcess(p)
    ensures HasFile(Reached(w, c, p).files) ==> MayLeaveFile(p, false)
    decreases p
  {
    var r := LaunchGroup(w, c, p.group);
    GroupKeeps(w, c, p.group);
    if p.group != [] {
      StageKeeps(w, c, p.group[0]);
      OneStage(w, c, p.group);
    }
    if r.Ok? && p.Branch? {
      LaunchedSome(w, c, p.group);
      if Proceeds(p.op, GroupStatus(w, r.c)) {
        LeavesOnlyIf(w, EndGroup(r.c), p.rest);
      }
    }
  }

  lemma {:induction false} OneStage(w: World, c: Ctx, g: seq<StageOk>)
    requires g != []
    ensures |g| == 1 || LaunchStage(w, c, g[0]).Fail? ==> LaunchGroup(w, c, g) == LaunchStage(w, c, g[0])
  {
    if |g| == 1 {
      assert g[1..] == [];
    }
  }

  // ---------- Worlds that leave something ----------

  /** Every operator goes on, files can be opened, and only one start of a process fails. */
  ghost predicate FailsAt(w: World, n: nat) {
    (forall f: nat :: !w.openFails(f)) && (forall k: nat :: w.launchFails(k) <==> k == n)
  }

  ghost predicate Leads(w: World, n: nat, p: Plan) {
    forall k: nat :: k >= n ==> w.exit(k) == Leading(p, n)(k)
  }

  lemma {:induction false} LeadsOn(w: World, n: nat, p: Plan)
    requires ProperPlan(p) && p.Branch? && Leads(w, n, p)
    ensures Proceeds(p.op, w.exit(n + |p.group| - 1)) && Leads(w, n + |p.group|, p.rest)
  {
    var m := n + |p.group|;
    assert w.exit(m - 1) == Leading(p, n)(m - 1);
    forall k: nat | k >= m
      ensures w.exit(k) == Leading(p.rest, m)(k)
    {
      assert w.exit(k) == Leading(p, n)(k);
    }
  }

  /** The number of processes started before the first group that can break off with one. */
  function Ahead(p: Plan): nat
    requires ProperPlan(p) && MayLeaveProcess(p)
  {
    if |p.group| > 1 || p.Stuck? then 0 else |p.group| + Ahead(p.rest)
  }

  /** The second process of that group cannot be started, or a bad cd comes first. */
  lemma {:induction false} ProcessLeft(w: World, c: Ctx, p: Plan)
    requires ProperPlan(p) && MayLeaveProcess(p) && c.pids == []
    requires FailsAt(w, c.np + Ahead(p) + 1) && Leads(w, c.np, p)
    ensures Reached(w, c, p).pids != []
    decreases p
  {
    StageOpens(w, c, p.group[0]);
    var r := LaunchStage(w, c, p.group[0]);
    assert r.Ok?;
    if |p.group| > 1 {
      SecondFails(w, c, p.group);
    } else {
      OneStage(w, c, p.group);
      hide LaunchGroup, LaunchStage, Leads, FailsAt, Leading;
      if p.Branch? {
        LeadsOn(w, c.np, p);
        ProcessLeft(w, EndGroup(r.c), p.rest);
      }
    }
  }

  lemma {:induction false} SecondFails(w: World, c: Ctx, g: seq<StageOk>)
    requires |g| > 1 && GoodDirs(g[0].dirs) && FailsAt(w, c.np + 1) && c.pids == []
    ensures LaunchGroup(w, c, g).Fail? && LaunchGroup(w, c, g).c.pids != []
  {
    StageOpens(w, c, g[0]);
    var r := LaunchStage(w, c, g[0]);
    StageKeeps(w, r.c, g[1]);
    if GoodDirs(g[1].dirs) { StageOpens(w, r.c, g[1]); }
    assert g[1..][0] == g[1];
    OneStage(w, r.c, g[1..]);
  }

  function GroupTarget(g: seq<StageOk>, process: bool): (n: nat)
    requires GroupMayOpen(g, process)
    ensures n < |g|
    decreases |g|
  {
    if Opens(g[0].cmd, process) then 0 else 1 + GroupTarget(g[1..], true)
  }

  /** The number of processes started before the first command that opens a file. */
  function Target(p: Plan): nat
    requires ProperPlan(p) && MayLeaveFile(p, false)
  {
    if GroupMayOpen(p.group, false) then GroupTarget(p.group, false) else |p.group| + Target(p.rest)
  }

  lemma {:induction false} GroupFileLeft(w: World, c: Ctx, g: seq<StageOk>)
    requires GroupMayOpen(g, c.pids != []) && FailsAt(w, c.np + GroupTarget(g, c.pids != []))
    ensures LaunchGroup(w, c, g).Fail? && HasFile(LaunchGroup(w, c, g).c.files)
    decreases |g|
  {
    StageOpens(w, c, g[0]);
    if !Opens(g[0].cmd, c.pids != []) {
      GroupFileLeft(w, LaunchStage(w, c, g[0]).c, g[1..]);
    }
  }

  /** A complete group in front of the failing process is run, and the next one comes. */
  lemma {:induction false} GoesOn(w: World, c: Ctx, p: Plan, n: nat)
    requires ProperPlan(p) && p.Branch? && GoodGroup(p.group)
    requires FailsAt(w, n) && n >= c.np + |p.group| && Leads(w, c.np, p)
    ensures var r := LaunchGroup(w, c, p.group);
      && r.Ok? && r.c.np == c.np + |p.group| && r.c.pids != [] && Proceeds(p.op, GroupStatus(w, r.c))
      && Leads(w, r.c.np, p.rest)
  {
    LaunchGroupOk(w, c, p.group);
    LeadsOn(w, c.np, p);
  }

  lemma {:induction false} ReachedRest(w: World, c: Ctx, p: Plan)
    requires ProperPlan(p) && p.Branch? && LaunchGroup(w, c, p.group).Ok?
    ensures var r := LaunchGroup(w, c, p.group);
      r.c.pids != [] && (Proceeds(p.op, GroupStatus(w, r.c)) ==> Reached(w, c, p) == Reached(w, EndGroup(r.c), p.rest))
  {
    LaunchedSome(w, c, p.group);
  }

  lemma {:induction false} FirstFileLeft(w: World, c: Ctx, p: Plan)
    requires ProperPlan(p) && GroupMayOpen(p.group, false) && c.pids == []
    requires FailsAt(w, c.np + GroupTarget(p.group, false))
    ensures HasFile(Reached(w, c, p).files)
  {
    hide FailsAt, HasFile, GroupMayOpen, GroupTarget;
    GroupFileLeft(w, c, p.group);
  }

  /** The process that was to use the first file opened cannot be started. */
  lemma {:induction false} FileLeft(w: World, c: Ctx, p: Plan)
    requires ProperPlan(p) && MayLeaveFile(p, false) && c.pids == []
    requires FailsAt(w, c.np + Target(p)) && Leads(w, c.np, p)
    ensures HasFile(Reached(w, c, p).files)
    decreases p
  {
    hide FailsAt, Leads, Leading, GoodGroup, GroupMayOpen, GroupTarget, HasFile, LaunchGroup, Reached, Proceeds;
    if GroupMayOpen(p.group, false) {
      FirstFileLeft(w, c, p);
    } else {
      GoesOn(w, c, p, c.np + Target(p));
      ReachedRest(w, c, p);
      FileLeft(w, EndGroup(LaunchGroup(w, c, p.group).c), p.rest);
    }
  }

  /** Whether any world makes the plan leave a process, and whether a file. */
  lemma {:induction false} LeavesIff(p: Plan)
    requires ProperPlan(p) && PipedPlan(p)
    ensures (exists w: World :: LeavesProcess(w, p)) <==> MayLeaveProcess(p)
    ensures (exists w: World :: LeavesFile(w, p)) <==> MayLeaveFile(p, false)
  {
    hide LeavesProcess, LeavesFile, MayLeaveProcess, MayLeaveFile, Reached, HasFile;
    forall w: World
      ensures LeavesProcess(w, p) ==> MayLeaveProcess(p)
      ensures LeavesFile(w, p) ==> MayLeaveFile(p, false)
    {
      LeftAtEnd(w, p);
      LeavesOnlyIf(w, FRESH, p);
    }
    if MayLeaveProcess(p) {
      var n := Ahead(p) + 1;
      var w := World(Leading(p, 0), k => k == n, _ => false);
      ProcessLeft(w, FRESH, p);
      LeftAtEnd(w, p);
    }
    if MayLeaveFile(p, false) {
      var n := Target(p);
      var w := World(Leading(p, 0), k => k == n, _ => false);
      FileLeft(w, FRESH, p);
      LeftAtEnd(w, p);
    }
  }

  // ---------- The same read off the list ----------

  /** No bad cd stands between i and j. */
  predicate NoBadCd(nodes: seq<Node>, i: nat, j: nat) {
    forall k :: i <= k < j ==> !BadCd(nodes, k)
  }

  predicate ReachesPipe(nodes: seq<Node>, i: nat, j: nat) {
    i <= j < |nodes| && nodes[j].Pipe? && NoBadCd(nodes, i, j)
  }

  predicate ReachesOpen(nodes: seq<Node>, i: nat, j: nat) {
    i <= j < |nodes| && OpensAt(nodes, j) && NoBadCd(nodes, i, j)
  }

  lemma {:induction false} MayWithDir(d: Option<string>, p: Plan, process: bool)
    requires ProperPlan(p)
    ensures MayLeaveProcess(WithDir(d, p)) <==> d.Some? && MayLeaveProcess(p)
    ensures MayLeaveFile(WithDir(d, p), process) <==> d.Some? && MayLeaveFile(p, process)
  {
    if p.group != [] {
      var g := WithDir(d, p).group;
      assert g[1..] == p.group[1..] && g[0].cmd == p.group[0].cmd;
      DirsCons(d, p.group[0].dirs);
      GoodCons(g[0], g[1..]);
      GoodCons(p.group[0], g[1..]);
      assert g == [g[0]] + g[1..] && p.group == [p.group[0]] + g[1..];
      hide GoodDirs, GoodGroup;
    }
  }

  lemma {:induction false} MayCons(s: StageOk, g: seq<StageOk>, process: bool)
    requires s.dirs == []
    ensures GroupMayOpen([s] + g, process) <==> Opens(s.cmd, process) || GroupMayOpen(g, true)
    ensures GroupMayOpen([s], process) <==> Opens(s.cmd, process)
    ensures GoodGroup([s] + g) <==> GoodGroup(g)
    ensures GoodGroup([s])
  {
    GoodCons(s, g);
    GoodCons(s, []);
    assert ([s] + g)[1..] == g && [s][1..] == [] && [s] + [] == [s];
  }

  ghost predicate AnyPipe(nodes: seq<Node>, i: nat) {
    exists j: nat :: ReachesPipe(nodes, i, j)
  }

  ghost predicate AnyOpen(nodes: seq<Node>, i: nat) {
    exists j: nat :: ReachesOpen(nodes, i, j)
  }

  lemma {:induction false} NextAny(nodes: seq<Node>, i: nat)
    requires WellFormed(nodes) && i % 2 == 0 && i + 2 < |nodes|
    ensures AnyPipe(nodes, i) <==> nodes[i + 1].Pipe? || (!BadCd(nodes, i) && AnyPipe(nodes, i + 2))
    ensures AnyOpen(nodes, i) <==> OpensAt(nodes, i) || (!BadCd(nodes, i) && AnyOpen(nodes, i + 2))
  {
    assert GoodAt(nodes, i) && GoodAt(nodes, i + 1);
    var k := i + 2;
    assert !OpensAt(nodes, i + 1);
    hide OpensAt;
        if j: nat :| ReachesPipe(nodes, i, j) {
      assert j == i + 1 || ReachesPipe(nodes, k, j);
    }
    if j: nat :| ReachesOpen(nodes, i, j) {
      assert j == i || ReachesOpen(nodes, k, j);
    }
    if nodes[i + 1].Pipe? {
      assert ReachesPipe(nodes, i, i + 1);
    }
    if OpensAt(nodes, i) {
      assert ReachesOpen(nodes, i, i);
    }
    if !BadCd(nodes, i) {
      if j: nat :| ReachesPipe(nodes, k, j) {
        assert ReachesPipe(nodes, i, j);
      }
      if j: nat :| ReachesOpen(nodes, k, j) {
        assert ReachesOpen(nodes, i, j);
      }
    }
  }

  lemma {:induction false} MayLeaveOfList(nodes: seq<Node>, i: nat)
    requires WellFormed(nodes) && i < |nodes| && i % 2 == 0
    ensures MayLeaveProcess(PlanFrom(nodes, i)) <==> AnyPipe(nodes, i)
    decreases |nodes| - i
  {
    assert GoodAt(nodes, i);
    if i + 1 < |nodes| {
      assert GoodAt(nodes, i + 1);
      MayLeaveOfList(nodes, i + 2);
      NextAny(nodes, i);
      hide AnyPipe;
      if nodes[i].Chdir? {
        MayWithDir(nodes[i].dir, PlanFrom(nodes, i + 2), false);
      }
    }
  }

  lemma {:induction false} MayOpenOfList(nodes: seq<Node>, i: nat)
    requires WellFormed(nodes) && i < |nodes| && i % 2 == 0
    ensures MayLeaveFile(PlanFrom(nodes, i), AfterPipe(nodes, i)) <==> AnyOpen(nodes, i)
    decreases |nodes| - i
  {
    assert GoodAt(nodes, i);
    hide AfterPipe, Opens;
    var process := AfterPipe(nodes, i);
    if i + 1 < |nodes| {
      assert GoodAt(nodes, i + 1);
      MayOpenOfList(nodes, i + 2);
      NextAfterPipe(nodes, i);
      NextAny(nodes, i);
      var p := PlanFrom(nodes, i + 2);
      if nodes[i].Chdir? {
        MayWithDir(nodes[i].dir, p, process);
      } else {
        MayCons(Stage([], nodes[i]), p.group, process);
      }
      hide GroupMayOpen, GoodGroup, AnyOpen;
    } else {
      if nodes[i].Command? { MayCons(Stage([], nodes[i]), [], process); }
      assert ReachesOpen(nodes, i, i) <==> OpensAt(nodes, i);
    }
  }

  /** In some world a run leaves a process exactly when the list has a Pipe with no bad cd in
      front, and in some world it leaves a file exactly when a command with no bad cd in front
      opens one. */
  lemma {:induction false} RunsLeave(nodes: seq<Node>)
    requires WellFormed(nodes)
    ensures (exists w: World :: LeavesProcess(w, PlanFrom(nodes, 0))) <==> AnyPipe(nodes, 0)
    ensures (exists w: World :: LeavesFile(w, PlanFrom(nodes, 0))) <==> AnyOpen(nodes, 0)
  {
    PlanIsPiped(nodes, 0);
    LeavesIff(PlanFrom(nodes, 0));
    MayLeaveOfList(nodes, 0);
    MayOpenOfList(nodes, 0);
  }

  // ---------- A list that leaves a process ----------

  const PIPE_INTO_CD := [Command("a", ["a"], None, ToPipe, Inherit, map[]), Pipe, Chdir(Some("x"))]

  lemma {:induction false} StepThen(s: PState, token: string, t: PState, rest: seq<string>)
    requires Consistent(s) && Step(s, token) == Some(t) && Consistent(t)
    ensures Steps(s, [token] + rest) == Steps(t, rest)
  {
    hide Step, Consistent;
    assert ([token] + rest)[1..] == rest;
  }

  lemma {:induction false} StepsIntoCd()
    ensures var c := NewCommand("a");
      && Step(START, "a") == Some(PState(InCommand, Some(c), map[], []))
      && Step(PState(InCommand, Some(c), map[], []), "|") == Some(PState(Begin, None, map[], PIPE_INTO_CD[..2]))
  {
    assert NameLength("a") == 1 by {
      assert "a"[1..] == "";
    }
    var c := NewCommand("a");
    assert Commit(PState(InCommand, Some(c.(stdout := ToPipe)), map[], []), Pipe).nodes == PIPE_INTO_CD[..2];
  }

  lemma {:induction false} StepsOfCd(pre: seq<Node>)
    ensures Step(PState(Begin, None, map[], pre), "cd") == Some(PState(InChdir, Some(Chdir(None)), map[], pre))
    ensures Step(PState(InChdir, Some(Chdir(None)), map[], pre), "x")
         == Some(PState(InChdir, Some(Chdir(Some("x"))), map[], pre))
  {
    assert NameLength("cd") == 2 by {
      assert "cd"[1..] == "d" && "d"[1..] == "";
    }
  }

  lemma {:induction false} ParsePipeIntoCd()
    ensures ParseTokens(["a", "|", "cd", "x"]) == Some(PIPE_INTO_CD)
  {
    var done := PIPE_INTO_CD[..2];
    var inA := PState(InCommand, Some(NewCommand("a")), map[], []);
    var piped := PState(Begin, None, map[], done);
    var inCd := PState(InChdir, Some(Chdir(None)), map[], done);
    var last := PState(InChdir, Some(Chdir(Some("x"))), map[], done);
    StepsIntoCd();
    StepsOfCd(done);
    hide Step, MatchEnvVar;
    StepThen(START, "a", inA, ["|", "cd", "x"]);
    StepThen(inA, "|", piped, ["cd", "x"]);
    StepThen(piped, "cd", inCd, ["x"]);
    StepThen(inCd, "x", last, []);
    assert ["a"] + ["|", "cd", "x"] == ["a", "|", "cd", "x"] && ["|"] + ["cd", "x"] == ["|", "cd", "x"];
    assert ["cd"] + ["x"] == ["cd", "x"] && ["x"] + [] == ["x"];
    assert done + [PIPE_INTO_CD[2]] == PIPE_INTO_CD;
  }

  /** A command piped into a last cd: run raises, and the process it started is never waited for. */
  lemma {:induction false} PipeIntoCd(w: World)
    requires !w.launchFails(0)
    ensures ParseTokens(["a", "|", "cd", "x"]) == Some(PIPE_INTO_CD) && WellFormed(PIPE_INTO_CD)
    ensures var (outcome, events) := Eval(w, FRESH, PlanFrom(PIPE_INTO_CD, 0));
      outcome == Raised(PopFromEmpty) && Count(events, Starting, 0) == 1 && Count(events, Waiting, 0) == 0
  {
    ParsePipeIntoCd();
    ParsedIsWellFormed(["a", "|", "cd", "x"]);
    hide WellFormed, ParseTokens;
    var nodes := PIPE_INTO_CD;
    var s: StageOk := Stage([], nodes[0]);
    assert PlanFrom(nodes, 2) == Stuck([], [Some("x")]);
    assert [s] + [] == [s];
    assert PlanFrom(nodes, 0) == Stuck([s], [Some("x")]);
    hide PlanFrom;
    var started := Started(0, ["a"], Inherited, NewPipe, Inherited, map[], None);
    assert LaunchGroup(w, FRESH, [s]).c.events == [started] by {
      assert [s][1..] == [];
    }
    assert [started][1..] == [];
  }
}
