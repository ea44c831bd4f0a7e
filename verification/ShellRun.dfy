/**
 Running a parsed list: the events a run causes, a recursive evaluator over pipe groups, and
 the process and file accounting of that evaluator.
 */
module ShellRun {
  import opened Common
  import opened ShellCmd

  // ---------- The operating system ----------

  /** What the n-th attempt to start a process or open a file does. */
  datatype World = World(exit: nat -> int, launchFails: nat -> bool, openFails: nat -> bool)

  /** What a stream of a started process is connected to. */
  datatype Handle = Inherited | PipeFrom(p: nat) | NewPipe | SameAsStdout | DevNull | File(f: nat)

  datatype Event =
    | Opened(f: nat, name: string, writing: bool)
    | Closed(f: nat)
    | Started(p: nat, argv: seq<string>, stdin: Handle, stdout: Handle, stderr: Handle,
              env: map<string, string>, cwd: Option<string>)
    | Waited(p: nat)

  datatype Error = OpenFailed | LaunchFailed | BadDirectory | PopFromEmpty

  /** How run ends: a status, nothing (an empty list), or an exception. */
  datatype Outcome = Returned(status: int) | NoStatus | Raised(error: Error)

  // ---------- The state a run threads through ----------

  /** np and nf count the attempts made; pids and files belong to the current pipe group. */
  datatype Ctx = Ctx(cwd: string, np: nat, nf: nat, pids: seq<nat>, files: seq<Handle>, events: seq<Event>)

  const FRESH := Ctx(".", 0, 0, [], [], [])

  datatype Res = Ok(c: Ctx) | Fail(error: Error, c: Ctx)
  datatype HandleRes = Got(h: Handle, c: Ctx) | NotGot(c: Ctx)

  /** os.path.join of two components. */
  function JoinPath(cwd: string, dir: string): string {
    if dir != [] && dir[0] == '/' then dir
    else if cwd == [] || cwd[|cwd| - 1] == '/' then cwd + dir
    else cwd + "/" + dir
  }

  predicate IsNullDevice(name: string) { name == "NUL:" || name == "/dev/null" }

  function OpenFile(w: World, c: Ctx, name: string, writing: bool): HandleRes {
    if w.openFails(c.nf) then NotGot(c.(nf := c.nf + 1))
    else Got(File(c.nf), c.(nf := c.nf + 1, files := c.files + [File(c.nf)],
                            events := c.events + [Opened(c.nf, name, writing)]))
  }

  /** Standard input: the previous process of the group if there is one, else the redirection. */
  function Input(w: World, c: Ctx, cmd: Node): HandleRes
    requires cmd.Command?
  {
    if c.pids != [] then Got(PipeFrom(c.pids[|c.pids| - 1]), c)
    else if cmd.stdin.Some? then OpenFile(w, c, cmd.stdin.value, false)
    else Got(Inherited, c)
  }

  function Output(w: World, c: Ctx, s: Stream): HandleRes {
    match s
    case Inherit => Got(Inherited, c)
    case ToPipe => Got(NewPipe, c)
    case ToStdout => Got(SameAsStdout, c)
    case ToFile(name) =>
      if IsNullDevice(name) then Got(DevNull, c.(files := c.files + [DevNull]))
      else OpenFile(w, c, name, true)
  }

  function Popen(w: World, c: Ctx, cmd: Node, i: Handle, o: Handle, e: Handle): Res
    requires cmd.Command?
  {
    if w.launchFails(c.np) then Fail(LaunchFailed, c.(np := c.np + 1))
    else
      var cwd := if c.cwd == "." then None else Some(c.cwd);
      Ok(c.(np := c.np + 1, pids := c.pids + [c.np],
            events := c.events + [Started(c.np, cmd.argv, i, o, e, cmd.env, cwd)]))
  }

  function LaunchCommand(w: World, c: Ctx, cmd: Node): Res
    requires cmd.Command?
  {
    match Input(w, c, cmd)
    case NotGot(c1) => Fail(OpenFailed, c1)
    case Got(i, c1) =>
      match Output(w, c1, cmd.stdout)
      case NotGot(c2) => Fail(OpenFailed, c2)
      case Got(o, c2) =>
        match Output(w, c2, cmd.stderr)
        case NotGot(c3) => Fail(OpenFailed, c3)
        case Got(e, c3) => Popen(w, c3, cmd, i, o, e)
  }

  function ChangeDir(c: Ctx, dir: Option<string>): Res {
    if dir.None? then Fail(BadDirectory, c) else Ok(c.(cwd := JoinPath(c.cwd, dir.value)))
  }

  function Waits(pids: seq<nat>): (r: seq<Event>)
    ensures |r| == |pids| && forall i :: 0 <= i < |r| ==> r[i] == Waited(pids[i])
  {
    seq(|pids|, i requires 0 <= i < |pids| => Waited(pids[i]))
  }

  function Closes(files: seq<Handle>): seq<Event> {
    if files == [] then []
    else (if files[0].File? then [Closed(files[0].f)] else []) + Closes(files[1..])
  }

  /** The end of a pipe group: wait for its processes in order, then close its files. */
  function EndGroup(c: Ctx): Ctx {
    c.(pids := [], files := [], events := c.events + Waits(c.pids) + Closes(c.files))
  }

  /** The exit status of a pipe group is that of its last process. */
  function GroupStatus(w: World, c: Ctx): int
    requires c.pids != []
  {
    w.exit(c.pids[|c.pids| - 1])
  }

  // ---------- The recursive evaluator ----------

  /** A command with the directory changes in front of it. */
  datatype Stage = Stage(dirs: seq<Option<string>>, cmd: Node)

  type StageOk = s: Stage | s.cmd.Command? witness Stage([], NewCommand("true"))

  /** Pipe groups, nested to the right; Stuck is a list that ends in a cd. */
  datatype Plan =
    | Final(group: seq<StageOk>)
    | Branch(group: seq<StageOk>, op: Node, rest: Plan)
    | Stuck(group: seq<StageOk>, dirs: seq<Option<string>>)

  function WithDir(d: Option<string>, p: Plan): Plan
    requires p.Stuck? || p.group != []
  {
    if p.Stuck? && p.group == [] then p.(dirs := [d] + p.dirs)
    else p.(group := [p.group[0].(dirs := [d] + p.group[0].dirs)] + p.group[1..])
  }

  predicate ProperPlan(p: Plan) {
    match p
    case Final(g) => g != []
    case Branch(g, op, rest) => g != [] && (op.And? || op.Or?) && ProperPlan(rest)
    case Stuck(g, dirs) => dirs != []
  }

  /** A well-formed list from position i (an even one) on. */
  function PlanFrom(nodes: seq<Node>, i: nat): (p: Plan)
    requires WellFormed(nodes) && i < |nodes| && i % 2 == 0
    ensures ProperPlan(p)
    decreases |nodes| - i
  {
    assert GoodAt(nodes, i);
    var last := i + 1 == |nodes|;
    assert !last ==> GoodAt(nodes, i + 1) && i + 2 < |nodes|;
    if nodes[i].Chdir? then
      if last then Stuck([], [nodes[i].dir]) else WithDir(nodes[i].dir, PlanFrom(nodes, i + 2))
    else
      var s := Stage([], nodes[i]);
      if last then Final([s])
      else
        var p := PlanFrom(nodes, i + 2);
        if nodes[i + 1].Pipe? then p.(group := [s] + p.group) else Branch([s], nodes[i + 1], p)
  }

  function ChangeDirs(c: Ctx, dirs: seq<Option<string>>): Res
    decreases |dirs|
  {
    if dirs == [] then Ok(c)
    else match ChangeDir(c, dirs[0])
      case Fail(e, c1) => Fail(e, c1)
      case Ok(c1) => ChangeDirs(c1, dirs[1..])
  }

  function LaunchStage(w: World, c: Ctx, s: StageOk): Res {
    match ChangeDirs(c, s.dirs)
    case Fail(e, c1) => Fail(e, c1)
    case Ok(c1) => LaunchCommand(w, c1, s.cmd)
  }

  function LaunchGroup(w: World, c: Ctx, group: seq<StageOk>): Res
    decreases |group|
  {
    if group == [] then Ok(c)
    else match LaunchStage(w, c, group[0])
      case Fail(e, c1) => Fail(e, c1)
      case Ok(c1) => LaunchGroup(w, c1, group[1..])
  }

  /** A cd list without a command after it: every cd but the last finds its operator. */
  function TrailingDirs(c: Ctx, dirs: seq<Option<string>>): Error
    requires dirs != []
  {
    match ChangeDirs(c, dirs[..|dirs| - 1])
    case Fail(e, _) => e
    case Ok(_) => PopFromEmpty
  }

  predicate Proceeds(op: Node, status: int) {
    if op.And? then status == 0 else status != 0
  }

  function Eval(w: World, c: Ctx, p: Plan): (Outcome, seq<Event>)
    requires ProperPlan(p)
    decreases p
  {
    match LaunchGroup(w, c, p.group)
    case Fail(e, c1) => (Raised(e), c1.events)
    case Ok(c1) =>
      match p
      case Stuck(_, dirs) => (Raised(TrailingDirs(c1, dirs)), c1.events)
      case Final(_) => LaunchedSome(w, c, p.group); (Returned(GroupStatus(w, c1)), EndGroup(c1).events)
      case Branch(_, op, rest) =>
        LaunchedSome(w, c, p.group);
        var status := GroupStatus(w, c1);
        if Proceeds(op, status) then Eval(w, EndGroup(c1), rest)
        else (Returned(status), EndGroup(c1).events)
  }

  lemma {:induction false} LaunchedCommand(w: World, c: Ctx, cmd: Node)
    requires cmd.Command? && LaunchCommand(w, c, cmd).Ok?
    ensures LaunchCommand(w, c, cmd).c.pids != []
  {}

  lemma {:induction false} LaunchedMore(w: World, c: Ctx, group: seq<StageOk>)
    requires LaunchGroup(w, c, group).Ok? && c.pids != []
    ensures LaunchGroup(w, c, group).c.pids != []
    decreases |group|
  {
    if group != [] {
      var c1 := ChangeDirs(c, group[0].dirs).c;
      LaunchedCommand(w, c1, group[0].cmd);
      LaunchedMore(w, LaunchStage(w, c, group[0]).c, group[1..]);
    }
  }

  lemma {:induction false} LaunchedSome(w: World, c: Ctx, group: seq<StageOk>)
    requires LaunchGroup(w, c, group).Ok? && group != []
    ensures LaunchGroup(w, c, group).c.pids != []
  {
    var c1 := ChangeDirs(c, group[0].dirs).c;
    LaunchedCommand(w, c1, group[0].cmd);
    LaunchedMore(w, LaunchStage(w, c, group[0]).c, group[1..]);
  }
}
