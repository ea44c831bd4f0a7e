/**
 What a run that raises leaves behind, that is, processes nobody has waited for and files nobody
 has closed, and which parsed lists leave any where no open and no start of a process fails.
 */
module ShellLeaks {
  import opened Common
  import opened ShellCmd
  import opened ShellRun
  import opened ShellAccount
  import opened ShellPosix

  // ---------- The group in progress ----------

  /** The last group that a run attempts: the context before it, and the plan from it on. */
  function LastGroup(w: World, c: Ctx, p: Plan): (r: (Ctx, Plan))
    requires ProperPlan(p)
    ensures ProperPlan(r.1)
    decreases p
  {
    match LaunchGroup(w, c, p.group)
    case Fail(_, _) => (c, p)
    case Ok(c1) =>
      if !p.Branch? then (c, p)
      else
        LaunchedSome(w, c, p.group);
        if Proceeds(p.op, GroupStatus(w, c1)) then LastGroup(w, EndGroup(c1), p.rest) else (c, p)
  }

  /** Nothing is left of the groups before it, and a raise leaves exactly what it has started and
      opened itself. */
  lemma {:induction false} RaiseLeavesLastGroup(w: World, c: Ctx, p: Plan)
    requires ProperPlan(p) && PipedPlan(p) && Ready(c) && c.pids == [] && c.files == []
    ensures var (d, q) := LastGroup(w, c, p);
      && Ready(d) && d.pids == [] && d.files == [] && Eval(w, c, p) == Eval(w, d, q)
      && (Eval(w, c, p).0.Raised? ==>
            && Replay(Eval(w, c, p).1).Some?
            && Replay(Eval(w, c, p).1).value.running == PidSet(LaunchGroup(w, d, q.group).c.pids)
            && Replay(Eval(w, c, p).1).value.open == FileSet(LaunchGroup(w, d, q.group).c.files))
    decreases p
  {
    LaunchGroupKeepsAccount(w, c, p.group, p.Stuck?);
    var r := LaunchGroup(w, c, p.group);
    if r.Ok? && p.Branch? {
      LaunchedSome(w, c, p.group);
      EndGroupKeepsAccount(r.c);
      if Proceeds(p.op, GroupStatus(w, r.c)) {
        RaiseLeavesLastGroup(w, EndGroup(r.c), p.rest);
      }
    }
  }

  predicate HasFile(files: seq<Handle>) {
    exists i :: 0 <= i < |files| && files[i].File?
  }

  lemma {:induction false} FilesOfSet(files: seq<Handle>)
    ensures HasFile(files) <==> FileSet(files) != {}
  {
    if HasFile(files) {
      var i :| 0 <= i < |files| && files[i].File?;
      assert files[i].f in FileSet(files);
    }
    if FileSet(files) != {} {
      var f :| f in FileSet(files);
    }
  }

  /** Some process that the run has started is never waited for. */
  ghost predicate LeavesProcess(w: World, p: Plan)
    requires ProperPlan(p)
  {
    var end := Replay(Eval(w, FRESH, p).1);
    end.Some? && end.value.running != {}
  }

  /** Some file that the run has opened is never closed. */
  ghost predicate LeavesFile(w: World, p: Plan)
    requires ProperPlan(p)
  {
    var end := Replay(Eval(w, FRESH, p).1);
    end.Some? && end.value.open != {}
  }

  lemma {:induction false} LeftAtEnd(w: World, p: Plan)
    requires ProperPlan(p) && PipedPlan(p)
    ensures LeavesProcess(w, p) <==> Reached(w, FRESH, p).pids != []
    ensures LeavesFile(w, p) <==> HasFile(Reached(w, FRESH, p).files)
    ensures Eval(w, FRESH, p).0.Returned? ==> !LeavesProcess(w, p) && !LeavesFile(w, p)
  {
    FreshIsReady();
    EvalBalanced(w, FRESH, p);
    var d := Reached(w, FRESH, p);
    FilesOfSet(d.files);
    if d.pids != [] {
      assert d.pids[0] in PidSet(d.pids);
    }
  }

  // ---------- Where nothing fails ----------

  predicate OpensFile(s: Stream) { s.ToFile? && !IsNullDevice(s.name) }

  /** Starting the command opens a file; a command that reads a pipe ignores its redirection. */
  predicate Opens(cmd: Node, piped: bool)
    requires cmd.Command?
  {
    (!piped && cmd.stdin.Some?) || OpensFile(cmd.stdout) || OpensFile(cmd.stderr)
  }

  /** Whether the group in progress has a process and an open file, at its end or where it breaks. */
  datatype GroupEnd = Through(process: bool, file: bool) | Broken(process: bool, file: bool)

  function GroupLeft(g: seq<StageOk>, process: bool, file: bool): GroupEnd
    decreases |g|
  {
    if g == [] then Through(process, file)
    else if !GoodDirs(g[0].dirs) then Broken(process, file)
    else GroupLeft(g[1..], true, file || Opens(g[0].cmd, process))
  }

  function PlanLeft(p: Plan, process: bool, file: bool): (bool, bool) {
    match GroupLeft(p.group, process, file)
    case Broken(b, o) => (b, o)
    case Through(b, o) =>
      match p
      case Final(_) => (false, false)
      case Stuck(_, _) => (b, o)
      case Branch(_, _, rest) => PlanLeft(rest, false, false)
  }

  lemma {:induction false} OpenAddsFile(w: World, c: Ctx, s: Stream)
    requires forall f: nat :: !w.openFails(f)
    ensures var r := Output(w, c, s);
      r.Got? && (HasFile(r.c.files) <==> HasFile(c.files) || OpensFile(s)) && r.c.pids == c.pids && r.c.np == c.np
  {
    var d := Output(w, c, s).c;
    assert forall i :: 0 <= i < |c.files| ==> d.files[i] == c.files[i];
    if OpensFile(s) {
      assert d.files[|c.files|].File?;
    }
  }

  lemma {:induction false} InputAddsFile(w: World, c: Ctx, cmd: Node)
    requires cmd.Command? && forall f: nat :: !w.openFails(f)
    ensures var r := Input(w, c, cmd);
      && r.Got? && r.c.pids == c.pids && r.c.np == c.np
      && (HasFile(r.c.files) <==> HasFile(c.files) || (c.pids == [] && cmd.stdin.Some?))
  {
    var d := Input(w, c, cmd).c;
    assert forall i :: 0 <= i < |c.files| ==> d.files[i] == c.files[i];
    if c.pids == [] && cmd.stdin.Some? {
      assert d.files[|c.files|].File?;
    }
  }

  /** A command whose files can be opened has them open whether or not its process starts. */
  lemma {:induction false} LaunchOpens(w: World, c: Ctx, cmd: Node)
    requires cmd.Command? && forall f: nat :: !w.openFails(f)
    ensures var r := LaunchCommand(w, c, cmd);
      && (r.Ok? <==> !w.launchFails(c.np)) && r.c.np == c.np + 1
      && r.c.pids == (if r.Ok? then c.pids + [c.np] else c.pids)
      && (HasFile(r.c.files) <==> HasFile(c.files) || Opens(cmd, c.pids != []))
  {
    InputAddsFile(w, c, cmd);
    var i := Input(w, c, cmd);
    OpenAddsFile(w, i.c, cmd.stdout);
    var o := Output(w, i.c, cmd.stdout);
    OpenAddsFile(w, o.c, cmd.stderr);
  }

  lemma {:induction false} StageOpens(w: World, c: Ctx, s: StageOk)
    requires GoodDirs(s.dirs) && forall f: nat :: !w.openFails(f)
    ensures var r := LaunchStage(w, c, s);
      && (r.Ok? <==> !w.launchFails(c.np)) && r.c.np == c.np + 1
      && r.c.pids == (if r.Ok? then c.pids + [c.np] else c.pids)
      && (HasFile(r.c.files) <==> HasFile(c.files) || Opens(s.cmd, c.pids != []))
  {
    ChangeDirsOk(c, s.dirs);
    LaunchOpens(w, ChangeDirs(c, s.dirs).c, s.cmd);
  }

  lemma {:induction false} FriendlyGroup(w: World, c: Ctx, g: seq<StageOk>)
    requires Friendly(w)
    ensures var r := LaunchGroup(w, c, g);
      GroupLeft(g, c.pids != [], HasFile(c.files))
      == if r.Ok? then Through(r.c.pids != [], HasFile(r.c.files)) else Broken(r.c.pids != [], HasFile(r.c.files))
    decreases |g|
  {
    if g != [] {
      ChangeDirsOk(c, g[0].dirs);
      if GoodDirs(g[0].dirs) {
        StageOpens(w, c, g[0]);
        FriendlyGroup(w, LaunchStage(w, c, g[0]).c, g[1..]);
      }
    }
  }

  /** Where nothing fails, all raising runs of a plan leave the same kinds of things. */
  lemma {:induction false} FriendlyRaise(w: World, c: Ctx, p: Plan)
    requires ProperPlan(p) && Friendly(w) && Eval(w, c, p).0.Raised?
    ensures var d := Reached(w, c, p); PlanLeft(p, c.pids != [], HasFile(c.files)) == (d.pids != [], HasFile(d.files))
    decreases p
  {
    FriendlyGroup(w, c, p.group);
    var r := LaunchGroup(w, c, p.group);
    if r.Ok? && p.Branch? {
      LaunchedSome(w, c, p.group);
      FriendlyRaise(w, EndGroup(r.c), p.rest);
    }
  }

  lemma {:induction false} GoodGroupThrough(g: seq<StageOk>, process: bool, file: bool)
    requires GoodGroup(g)
    ensures GroupLeft(g, process, file).Through?
    decreases |g|
  {
    if g != [] {
      GoodGroupThrough(g[1..], true, file || Opens(g[0].cmd, process));
    }
  }

  lemma {:induction false} GoodPlanLeavesNothing(p: Plan, process: bool, file: bool)
    requires ProperPlan(p) && GoodPlan(p)
    ensures PlanLeft(p, process, file) == (false, false)
    decreases p
  {
    GoodGroupThrough(p.group, process, file);
    if p.Branch? {
      GoodPlanLeavesNothing(p.rest, false, false);
    }
  }

  lemma {:induction false} EndsSomehow(w: World, c: Ctx, p: Plan)
    requires ProperPlan(p)
    ensures Eval(w, c, p).0.Returned? || Eval(w, c, p).0.Raised?
    decreases p
  {
    var r := LaunchGroup(w, c, p.group);
    if r.Ok? && p.Branch? {
      LaunchedSome(w, c, p.group);
      if Proceeds(p.op, GroupStatus(w, r.c)) {
        EndsSomehow(w, EndGroup(r.c), p.rest);
      }
    }
  }

  /** Whether some friendly world makes the plan leave a process, and whether a file. */
  lemma {:induction false} FriendlyLeavesIff(p: Plan)
    requires ProperPlan(p) && PipedPlan(p)
    ensures (exists w: World :: Friendly(w) && LeavesProcess(w, p)) <==> PlanLeft(p, false, false).0
    ensures (exists w: World :: Friendly(w) && LeavesFile(w, p)) <==> PlanLeft(p, false, false).1
  {
    forall w: World | Friendly(w) && (LeavesProcess(w, p) || LeavesFile(w, p))
      ensures LeavesProcess(w, p) ==> PlanLeft(p, false, false).0
      ensures LeavesFile(w, p) ==> PlanLeft(p, false, false).1
    {
      LeftAtEnd(w, p);
      EndsSomehow(w, FRESH, p);
      FriendlyRaise(w, FRESH, p);
    }
    if PlanLeft(p, false, false) != (false, false) {
      var w := World(Leading(p, 0), _ => false, _ => false);
      assert Friendly(w);
      if GoodPlan(p) {
        GoodPlanLeavesNothing(p, false, false);
      }
      BadPlanRaises(w, FRESH, p);
      FriendlyRaise(w, FRESH, p);
      LeftAtEnd(w, p);
    }
  }

  // ---------- The same read off the list ----------

  /** A cd that makes run raise: it has no directory, or nothing stands after it. */
  predicate BadCd(nodes: seq<Node>, i: nat) {
    i < |nodes| && nodes[i].Chdir? && (nodes[i].dir.None? || i + 1 == |nodes|)
  }

  /** No bad cd stands in front of i. */
  predicate CanReach(nodes: seq<Node>, i: nat) {
    forall k :: 0 <= k < i ==> !BadCd(nodes, k)
  }

  /** A Pipe stands in front of i, with no command between. */
  predicate AfterPipe(nodes: seq<Node>, i: nat)
    requires i <= |nodes|
  {
    exists j :: 0 <= j < i && nodes[j].Pipe? && forall k :: j < k < i ==> !nodes[k].Command?
  }

  /** Every command from j on and before i is followed by a Pipe. */
  predicate SameGroup(nodes: seq<Node>, j: nat, i: nat)
    requires i <= |nodes|
  {
    forall k :: j <= k < i && nodes[k].Command? ==> k + 1 < |nodes| && nodes[k + 1].Pipe?
  }

  predicate OpensAt(nodes: seq<Node>, j: nat)
    requires j < |nodes|
  {
    nodes[j].Command? && Opens(nodes[j], AfterPipe(nodes, j))
  }

  /** A command in front of i and in the same group opens a file. */
  predicate AfterOpen(nodes: seq<Node>, i: nat)
    requires i <= |nodes|
  {
    exists j :: 0 <= j < i && OpensAt(nodes, j) && SameGroup(nodes, j, i)
  }

  lemma {:induction false} NextAfterPipe(nodes: seq<Node>, i: nat)
    requires WellFormed(nodes) && i % 2 == 0 && i + 2 < |nodes|
    ensures AfterPipe(nodes, i + 2) <==> if nodes[i].Chdir? then AfterPipe(nodes, i) else nodes[i + 1].Pipe?
  {
    assert GoodAt(nodes, i) && GoodAt(nodes, i + 1);
    if nodes[i].Chdir? && AfterPipe(nodes, i) {
      var j :| 0 <= j < i && nodes[j].Pipe? && forall k :: j < k < i ==> !nodes[k].Command?;
      assert forall k :: j < k < i + 2 ==> !nodes[k].Command?;
    }
    if AfterPipe(nodes, i + 2) {
      var j :| 0 <= j < i + 2 && nodes[j].Pipe? && forall k :: j < k < i + 2 ==> !nodes[k].Command?;
    }
  }

  lemma {:induction false} NextAfterOpen(nodes: seq<Node>, i: nat)
    requires WellFormed(nodes) && i % 2 == 0 && i + 2 < |nodes|
    ensures AfterOpen(nodes, i + 2) <==>
      if nodes[i].Chdir? then AfterOpen(nodes, i) else nodes[i + 1].Pipe? && (AfterOpen(nodes, i) || OpensAt(nodes, i))
  {
    assert GoodAt(nodes, i) && GoodAt(nodes, i + 1);
    if AfterOpen(nodes, i) && (nodes[i].Chdir? || nodes[i + 1].Pipe?) {
      var j :| 0 <= j < i && OpensAt(nodes, j) && SameGroup(nodes, j, i);
      assert SameGroup(nodes, j, i + 2);
    }
    if nodes[i].Command? && nodes[i + 1].Pipe? && OpensAt(nodes, i) {
      assert SameGroup(nodes, i, i + 2);
    }
    if AfterOpen(nodes, i + 2) {
      var j :| 0 <= j < i + 2 && OpensAt(nodes, j) && SameGroup(nodes, j, i + 2);
      if j < i {
        assert SameGroup(nodes, j, i);
      }
    }
  }

  /** From position i on, with the group in progress as given. */
  function ListLeft(nodes: seq<Node>, i: nat, process: bool, file: bool): (bool, bool)
    requires WellFormed(nodes) && i < |nodes| && i % 2 == 0
    decreases |nodes| - i
  {
    assert GoodAt(nodes, i);
    if i + 1 == |nodes| then
      if nodes[i].Chdir? then (process, file) else (false, false)
    else
      if nodes[i].Chdir? then
        if nodes[i].dir.None? then (process, file) else ListLeft(nodes, i + 2, process, file)
      else if nodes[i + 1].Pipe? then ListLeft(nodes, i + 2, true, file || Opens(nodes[i], process))
      else ListLeft(nodes, i + 2, false, false)
  }

  lemma {:induction false} LeftWithDir(d: Option<string>, p: Plan, process: bool, file: bool)
    requires ProperPlan(p)
    ensures PlanLeft(WithDir(d, p), process, file)
         == if d.None? then (process, file) else PlanLeft(p, process, file)
  {
    if p.group != [] {
      var s := p.group[0];
      var g := WithDir(d, p).group;
      assert g[1..] == p.group[1..];
      DirsCons(d, s.dirs);
    }
  }

  lemma {:induction false} DirsCons(d: Option<string>, dirs: seq<Option<string>>)
    ensures GoodDirs([d] + dirs) <==> d.Some? && GoodDirs(dirs)
  {
    var all := [d] + dirs;
    assert all[0] == d;
    if GoodDirs(all) {
      forall i | 0 <= i < |dirs|
        ensures dirs[i].Some?
      {
        assert all[i + 1] == dirs[i];
      }
      assert GoodDirs(dirs);
    }
    if d.Some? && GoodDirs(dirs) {
      assert GoodDirs(all);
    }
  }

  lemma {:induction false} LeftCons(s: StageOk, g: seq<StageOk>, process: bool, file: bool)
    requires s.dirs == []
    ensures GroupLeft([s] + g, process, file) == GroupLeft(g, true, file || Opens(s.cmd, process))
    ensures GroupLeft([s], process, file) == Through(true, file || Opens(s.cmd, process))
  {
    assert ([s] + g)[1..] == g && [s][1..] == [];
    assert GroupLeft([s][1..], true, file || Opens(s.cmd, process)).Through?;
  }

  lemma {:induction false} LeftOfList(nodes: seq<Node>, i: nat, process: bool, file: bool)
    requires WellFormed(nodes) && i < |nodes| && i % 2 == 0
    ensures PlanLeft(PlanFrom(nodes, i), process, file) == ListLeft(nodes, i, process, file)
    decreases |nodes| - i
  {
    assert GoodAt(nodes, i);
    if i + 1 < |nodes| {
      assert GoodAt(nodes, i + 1);
      var p := PlanFrom(nodes, i + 2);
      if nodes[i].Chdir? {
        LeftWithDir(nodes[i].dir, p, process, file);
        LeftOfList(nodes, i + 2, process, file);
      } else {
        LeftCons(Stage([], nodes[i]), p.group, process, file);
        hide GroupLeft;
        if nodes[i + 1].Pipe? {
          LeftOfList(nodes, i + 2, true, file || Opens(nodes[i], process));
        } else {
          LeftOfList(nodes, i + 2, false, false);
        }
      }
    } else if nodes[i].Command? {
      LeftCons(Stage([], nodes[i]), [], process, file);
    }
  }

  /** The first bad cd is at k, and a process of its group runs when the run gets there. */
  predicate BreaksAfterPipe(nodes: seq<Node>, k: nat) {
    BadCd(nodes, k) && CanReach(nodes, k) && AfterPipe(nodes, k)
  }

  /** The first bad cd is at k, and a file of its group is open when the run gets there. */
  predicate BreaksAfterOpen(nodes: seq<Node>, k: nat) {
    BadCd(nodes, k) && CanReach(nodes, k) && AfterOpen(nodes, k)
  }

  lemma {:induction false} ListLeftIff(nodes: seq<Node>, i: nat)
    requires WellFormed(nodes) && i < |nodes| && i % 2 == 0 && CanReach(nodes, i)
    ensures var (process, file) := ListLeft(nodes, i, AfterPipe(nodes, i), AfterOpen(nodes, i));
      && (process <==> exists k: nat :: k >= i && BreaksAfterPipe(nodes, k))
      && (file <==> exists k: nat :: k >= i && BreaksAfterOpen(nodes, k))
    decreases |nodes| - i
  {
    assert GoodAt(nodes, i);
    hide AfterPipe, AfterOpen, Opens;
    if BadCd(nodes, i) {
      assert forall k: nat :: k > i ==> !CanReach(nodes, k);
      assert AfterPipe(nodes, i) ==> BreaksAfterPipe(nodes, i);
      assert AfterOpen(nodes, i) ==> BreaksAfterOpen(nodes, i);
    } else if i + 1 < |nodes| {
      assert GoodAt(nodes, i + 1);
      NextAfterPipe(nodes, i);
      NextAfterOpen(nodes, i);
      assert OpensAt(nodes, i) <==> nodes[i].Command? && Opens(nodes[i], AfterPipe(nodes, i));
      ListLeftIff(nodes, i + 2);
    }
  }

  /** Where nothing fails: some run leaves a process exactly when the first cd that makes run raise
      stands after a Pipe with no command between, and some run leaves a file exactly when a
      command in front of that cd and in its group opens one. */
  lemma {:induction false} FriendlyRunsLeave(nodes: seq<Node>)
    requires WellFormed(nodes)
    ensures (exists w: World :: Friendly(w) && LeavesProcess(w, PlanFrom(nodes, 0)))
       <==> exists k: nat :: BreaksAfterPipe(nodes, k)
    ensures (exists w: World :: Friendly(w) && LeavesFile(w, PlanFrom(nodes, 0)))
       <==> exists k: nat :: BreaksAfterOpen(nodes, k)
  {
    PlanIsPiped(nodes, 0);
    FriendlyLeavesIff(PlanFrom(nodes, 0));
    LeftOfList(nodes, 0, false, false);
    ListLeftIff(nodes, 0);
  }

  /** Only the first bad cd counts: in cd && a | cd x the second one stands after a Pipe, but the
      first one raises before anything starts. */
  lemma {:induction false} EarlierBadCdDecides()
    ensures var nodes := [Chdir(None), And, Command("a", ["a"], None, ToPipe, Inherit, map[]), Pipe, Chdir(Some("x"))];
      && WellFormed(nodes) && BadCd(nodes, 4) && AfterPipe(nodes, 4)
      && forall w: World :: Friendly(w) ==> !LeavesProcess(w, PlanFrom(nodes, 0))
  {
    var nodes := [Chdir(None), And, Command("a", ["a"], None, ToPipe, Inherit, map[]), Pipe, Chdir(Some("x"))];
    assert nodes[3].Pipe?;
    assert forall k: nat :: BadCd(nodes, k) && CanReach(nodes, k) ==> k == 0 by {
      assert BadCd(nodes, 0);
    }
    FriendlyRunsLeave(nodes);
  }
}
