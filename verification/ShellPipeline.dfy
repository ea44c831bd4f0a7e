/**
 The Pipeline object of ns-3/waf-tools/shellcmd.py: parse and run as they are written there,
 proved equal to the token function and to the recursive evaluator.
 */
module ShellPipeline {
  import opened Common
  import opened ShellCmd
  import opened ShellRun
  import opened ShellAccount

  /** The operating system calls run makes.  Each call is recorded. */
  class Os {
    const w: World
    var np: nat
    var nf: nat
    var events: seq<Event>

    constructor (world: World)
      ensures w == world && np == 0 && nf == 0 && events == []
    {
      w := world;
      np, nf, events := 0, 0, [];
    }

    method Open(name: string, writing: bool) returns (f: Option<nat>)
      modifies this
      ensures nf == old(nf) + 1 && np == old(np)
      ensures f == if w.openFails(old(nf)) then None else Some(old(nf))
      ensures events == old(events) + if f.Some? then [Opened(f.value, name, writing)] else []
    {
      f := None;
      if !w.openFails(nf) {
        f := Some(nf);
        events := events + [Opened(nf, name, writing)];
      }
      nf := nf + 1;
    }

    method Popen(argv: seq<string>, i: Handle, o: Handle, e: Handle, env: map<string, string>, cwd: Option<string>)
      returns (p: Option<nat>)
      modifies this
      ensures np == old(np) + 1 && nf == old(nf)
      ensures p == if w.launchFails(old(np)) then None else Some(old(np))
      ensures events == old(events) + if p.Some? then [Started(p.value, argv, i, o, e, env, cwd)] else []
    {
      p := None;
      if !w.launchFails(np) {
        p := Some(np);
        events := events + [Started(np, argv, i, o, e, env, cwd)];
      }
      np := np + 1;
    }

    method Wait(p: nat) returns (code: int)
      modifies this
      ensures np == old(np) && nf == old(nf) && events == old(events) + [Waited(p)]
      ensures code == w.exit(p)
    {
      events := events + [Waited(p)];
      code := w.exit(p);
    }

    method Close(f: nat)
      modifies this
      ensures np == old(np) && nf == old(nf) && events == old(events) + [Closed(f)]
    {
      events := events + [Closed(f)];
    }
  }

  lemma {:induction false} ClosesPrefix(files: seq<Handle>, h: Handle)
    ensures Closes(files + [h]) == Closes(files) + (if h.File? then [Closed(h.f)] else [])
    decreases |files|
  {
    if files == [] {
      assert Closes([h]) == (if h.File? then [Closed(h.f)] else []) + Closes([]);
    } else {
      assert (files + [h])[0] == files[0] && (files + [h])[1..] == files[1..] + [h];
      ClosesPrefix(files[1..], h);
    }
  }

  function EvalAfter(w: World, r: Res, p: Plan): (Outcome, seq<Event>)
    requires ProperPlan(p)
  {
    match r
    case Fail(e, c1) => (Raised(e), c1.events)
    case Ok(c1) => Eval(w, c1, p)
  }

  /** A cd in front of a plan is a change of directory before the plan. */
  lemma {:induction false} EvalWithDir(w: World, c: Ctx, d: Option<string>, p: Plan)
    requires ProperPlan(p)
    ensures ProperPlan(WithDir(d, p))
    ensures Eval(w, c, WithDir(d, p)) == EvalAfter(w, ChangeDir(c, d), p)
  {
    if p.Stuck? && p.group == [] {
      var dirs := [d] + p.dirs;
      assert dirs[..|dirs| - 1][1..] == p.dirs[..|p.dirs| - 1];
    } else {
      var s := p.group[0];
      var t := s.(dirs := [d] + s.dirs);
      var q := WithDir(d, p);
      assert q.group[0] == t && q.group[1..] == p.group[1..];
      assert t.dirs[1..] == s.dirs;
      var r := ChangeDir(c, d);
      if r.Ok? {
        assert LaunchStage(w, c, t) == LaunchStage(w, r.c, s);
        assert LaunchGroup(w, c, q.group) == LaunchGroup(w, r.c, p.group);
      }
    }
  }

  /** A command piped into the first group of a plan is launched before the plan goes on. */
  lemma {:induction false} EvalPiped(w: World, c: Ctx, s: StageOk, p: Plan)
    requires ProperPlan(p)
    ensures ProperPlan(p.(group := [s] + p.group))
    ensures Eval(w, c, p.(group := [s] + p.group)) == EvalAfter(w, LaunchStage(w, c, s), p)
  {
    assert ([s] + p.group)[1..] == p.group;
  }

  lemma {:induction false} LaunchAlone(w: World, c: Ctx, s: StageOk)
    requires s.dirs == []
    ensures LaunchStage(w, c, s) == LaunchCommand(w, c, s.cmd)
    ensures LaunchGroup(w, c, [s]) == LaunchStage(w, c, s)
  {
    assert [s][1..] == [];
  }

  /** What the evaluator does with a cd node. */
  lemma {:induction false} EvalChdirNode(w: World, c: Ctx, nodes: seq<Node>, i: nat)
    requires WellFormed(nodes) && i < |nodes| && i % 2 == 0 && nodes[i].Chdir?
    ensures i + 1 == |nodes| ==> Eval(w, c, PlanFrom(nodes, i)) == (Raised(PopFromEmpty), c.events)
    ensures i + 1 < |nodes| ==> i + 2 < |nodes| && nodes[i + 1].And?
    ensures i + 1 < |nodes| ==>
      Eval(w, c, PlanFrom(nodes, i)) == EvalAfter(w, ChangeDir(c, nodes[i].dir), PlanFrom(nodes, i + 2))
  {
    assert GoodAt(nodes, i);
    if i + 1 < |nodes| {
      assert GoodAt(nodes, i + 1);
      EvalWithDir(w, c, nodes[i].dir, PlanFrom(nodes, i + 2));
    }
  }

  /** What the evaluator does with a command node. */
  lemma {:induction false} EvalCommandNode(w: World, c: Ctx, nodes: seq<Node>, i: nat)
    requires WellFormed(nodes) && i < |nodes| && i % 2 == 0 && nodes[i].Command?
    ensures nodes[i].stdout != ToStdout && nodes[i].stderr != ToPipe
    ensures i + 1 < |nodes| ==> i + 2 < |nodes| && nodes[i + 1].IsOp()
    ensures
      var r := LaunchCommand(w, c, nodes[i]);
      var result := Eval(w, c, PlanFrom(nodes, i));
      && (r.Fail? ==> result == (Raised(r.error), r.c.events))
      && (r.Ok? ==>
           && r.c.pids != []
           && (i + 1 == |nodes| ==> result == (Returned(GroupStatus(w, r.c)), EndGroup(r.c).events))
           && (i + 1 < |nodes| && nodes[i + 1].Pipe? ==> result == Eval(w, r.c, PlanFrom(nodes, i + 2)))
           && (i + 1 < |nodes| && !nodes[i + 1].Pipe? ==>
                 result == if Proceeds(nodes[i + 1], GroupStatus(w, r.c)) then Eval(w, EndGroup(r.c), PlanFrom(nodes, i + 2))
                           else (Returned(GroupStatus(w, r.c)), EndGroup(r.c).events)))
  {
    assert GoodAt(nodes, i);
    var s: StageOk := Stage([], nodes[i]);
    if LaunchCommand(w, c, nodes[i]).Ok? { LaunchedCommand(w, c, nodes[i]); }
    LaunchAlone(w, c, s);
    if i + 1 < |nodes| {
      assert GoodAt(nodes, i + 1);
      if nodes[i + 1].Pipe? { EvalPiped(w, c, s, PlanFrom(nodes, i + 2)); }
    }
  }

  class Pipeline {
    var currentCommand: Option<Node>
    var pipeline: seq<Node>

    /** A pipeline that was never parsed, or that the last parse completed. */
    ghost predicate Valid()
      reads this
    {
      pipeline == [] || WellFormed(pipeline)
    }

    constructor ()
      ensures Valid() && pipeline == []
    {
      currentCommand, pipeline := None, [];
    }

    method CommitCommand() returns (ok: bool)
      modifies this
      ensures ok == old(currentCommand).Some?
      ensures !ok ==> pipeline == old(pipeline) && currentCommand.None?
      ensures ok ==> pipeline == old(pipeline) + [old(currentCommand).value] && currentCommand.None?
    {
      if currentCommand.None? {
        return false;
      }
      pipeline := pipeline + [currentCommand.value];
      currentCommand := None;
      return true;
    }

    /** parse; ok is false where an assertion of parse fails. */
    method Parse(command: seq<string>) returns (ok: bool)
      modifies this
      ensures ok == ParseTokens(command).Some?
      ensures ok ==> Some(pipeline) == ParseTokens(command) && Valid()
    {
      currentCommand := None;
      pipeline := [];
      var tokens := command;
      var state := Begin;
      var envVars: map<string, string> := map[];
      while tokens != []
        invariant Consistent(PState(state, currentCommand, envVars, pipeline))
        invariant Steps(PState(state, currentCommand, envVars, pipeline), tokens) == Steps(START, command)
        decreases |tokens|
      {
        var token := tokens[0];
        tokens := tokens[1..];
        if state == Begin {
          var envVarMatch := MatchEnvVar(token);
          if envVarMatch.Some? {
            envVars := envVars[envVarMatch.value.0 := envVarMatch.value.1];
          } else if token == "cd" {
            currentCommand := Some(Chdir(None));
            if envVars != map[] { return false; }
            state := InChdir;
          } else {
            var cmd := NewCommand(token);
            if envVars != map[] {
              cmd := cmd.(env := envVars);
              envVars := map[];
            }
            currentCommand := Some(cmd);
            state := InCommand;
          }
        } else if state == InCommand {
          var cmd := currentCommand.value;
          if token == ">" {
            state := WantStdout;
          } else if token == "2>" {
            state := WantStderr;
          } else if token == "2>&1" {
            if cmd.stderr != Inherit { return false; }
            currentCommand := Some(cmd.(stderr := ToStdout));
          } else if token == "<" {
            state := WantStdin;
          } else if token == "|" {
            if cmd.stdout != Inherit { return false; }
            currentCommand := Some(cmd.(stdout := ToPipe));
            var _ := CommitCommand();
            pipeline := pipeline + [Pipe];
            state := Begin;
          } else if token == "&&" {
            var _ := CommitCommand();
            pipeline := pipeline + [And];
            state := Begin;
          } else if token == "||" {
            var _ := CommitCommand();
            pipeline := pipeline + [Or];
            state := Begin;
          } else {
            currentCommand := Some(cmd.(argv := cmd.argv + [token]));
          }
        } else if state == InChdir {
          if token == "&&" {
            var _ := CommitCommand();
            pipeline := pipeline + [And];
            state := Begin;
          } else {
            if currentCommand.value.dir.Some? { return false; }
            currentCommand := Some(Chdir(Some(token)));
          }
        } else if state == WantStdout {
          if currentCommand.value.stdout != Inherit { return false; }
          currentCommand := Some(currentCommand.value.(stdout := ToFile(token)));
          state := InCommand;
        } else if state == WantStderr {
          if currentCommand.value.stderr != Inherit { return false; }
          currentCommand := Some(currentCommand.value.(stderr := ToFile(token)));
          state := InCommand;
        } else {
          if currentCommand.value.stdin != None { return false; }
          currentCommand := Some(currentCommand.value.(stdin := Some(token)));
          state := InCommand;
        }
      }
      ok := CommitCommand();
      if ok { ParsedIsWellFormed(command); }
    }

    /** _exec_piped_commands: wait for all of them; the status is that of the last one. */
    method ExecPipedCommands(os: Os, commands: seq<nat>) returns (retval: int)
      modifies os
      ensures os.np == old(os.np) && os.nf == old(os.nf)
      ensures os.events == old(os.events) + Waits(commands)
      ensures retval == if commands == [] then 0 else os.w.exit(commands[|commands| - 1])
    {
      var retvals: seq<int> := [];
      for k := 0 to |commands|
        invariant os.np == old(os.np) && os.nf == old(os.nf)
        invariant os.events == old(os.events) + Waits(commands[..k])
        invariant |retvals| == k && forall j :: 0 <= j < k ==> retvals[j] == os.w.exit(commands[j])
      {
        var r := os.Wait(commands[k]);
        retvals := retvals + [r];
      }
      assert commands[..|commands|] == commands;
      retval := 0;
      for k := 0 to |retvals|
        invariant retval == 0 && forall j :: 0 <= j < k ==> retvals[j] == 0
      {
        if retvals[k] != 0 {
          retval := retvals[|retvals| - 1];
          break;
        }
      }
    }

    method CloseFiles(os: Os, files: seq<Handle>)
      modifies os
      ensures os.np == old(os.np) && os.nf == old(os.nf)
      ensures os.events == old(os.events) + Closes(files)
    {
      for k := 0 to |files|
        invariant os.np == old(os.np) && os.nf == old(os.nf)
        invariant os.events == old(os.events) + Closes(files[..k])
      {
        ClosesPrefix(files[..k], files[k]);
        assert files[..k + 1] == files[..k] + [files[k]];
        if files[k].File? {
          os.Close(files[k].f);
        }
      }
      assert files[..|files|] == files;
    }

    /** _open_out_file. */
    method OpenOutFile(os: Os, name: string) returns (h: Option<Handle>)
      modifies os
      ensures forall c: Ctx :: c.np == old(os.np) && c.nf == old(os.nf) && c.events == old(os.events) ==>
        var r := Output(os.w, c, ToFile(name));
        && os.np == r.c.np && os.nf == r.c.nf && os.events == r.c.events
        && h == (if r.Got? then Some(r.h) else None)
        && r.c.files == c.files + (if r.Got? then [r.h] else [])
        && r.c.cwd == c.cwd && r.c.pids == c.pids
    {
      if IsNullDevice(name) {
        return Some(DevNull);
      }
      var f := os.Open(name, true);
      return if f.Some? then Some(File(f.value)) else None;
    }

    /** Standard input of a command: the pipe, a file, or the caller's. */
    method ConnectInput(os: Os, cmd: Node, ghost here: Ctx, inPipe: bool, pipedCommands: seq<nat>, filesToClose: seq<Handle>)
      returns (stdin: Option<Handle>, files: seq<Handle>)
      requires cmd.Command? && (inPipe <==> pipedCommands != [])
      requires here == Ctx(here.cwd, os.np, os.nf, pipedCommands, filesToClose, os.events)
      modifies os
      ensures var r := Input(os.w, here, cmd);
        && os.events == r.c.events && stdin == (if r.Got? then Some(r.h) else None)
        && (r.Got? ==> r.c == here.(np := os.np, nf := os.nf, files := files, events := os.events))
    {
      files := filesToClose;
      if inPipe {
        return Some(PipeFrom(pipedCommands[|pipedCommands| - 1])), files;
      } else if cmd.stdin.None? {
        return Some(Inherited), files;
      }
      var f := os.Open(cmd.stdin.value, false);
      if f.None? {
        return None, files;
      }
      return Some(File(f.value)), files + [File(f.value)];
    }

    /** The part of run that connects and starts one command. */
    method StartCommand(os: Os, cmd: Node, inPipe: bool, cwd: string, pipedCommands: seq<nat>,
                        filesToClose: seq<Handle>)
      returns (error: Option<Error>, piped: seq<nat>, files: seq<Handle>)
      requires cmd.Command? && cmd.stdout != ToStdout && cmd.stderr != ToPipe
      requires inPipe <==> pipedCommands != []
      modifies os
      ensures var r := LaunchCommand(os.w, Ctx(cwd, old(os.np), old(os.nf), pipedCommands, filesToClose,
                                               old(os.events)), cmd);
        && os.events == r.c.events
        && (error.None? ==> r == Ok(Ctx(cwd, os.np, os.nf, piped, files, os.events)))
        && (error.Some? ==> r.Fail? && r.error == error.value)
    {
      ghost var here := Ctx(cwd, os.np, os.nf, pipedCommands, filesToClose, os.events);
      error, piped := None, pipedCommands;
      var stdin;
      stdin, files := ConnectInput(os, cmd, here, inPipe, pipedCommands, filesToClose);
      if stdin.None? {
        error := Some(OpenFailed);
        return;
      }
      ghost var afterIn := Ctx(cwd, os.np, os.nf, piped, files, os.events);

      var stdout := Inherited;
      if cmd.stdout.ToPipe? {
        stdout := NewPipe;
      } else if cmd.stdout.ToFile? {
        var h := OpenOutFile(os, cmd.stdout.name);
        if h.None? {
          assert Output(os.w, afterIn, cmd.stdout).NotGot?;
          error := Some(OpenFailed);
          return;
        }
        stdout := h.value;
        files := files + [stdout];
      }
      ghost var afterOut := Ctx(cwd, os.np, os.nf, piped, files, os.events);
      assert Output(os.w, afterIn, cmd.stdout) == Got(stdout, afterOut);

      var stderr := Inherited;
      if cmd.stderr.ToStdout? {
        stderr := SameAsStdout;
      } else if cmd.stderr.ToFile? {
        var h := OpenOutFile(os, cmd.stderr.name);
        if h.None? {
          assert Output(os.w, afterOut, cmd.stderr).NotGot?;
          error := Some(OpenFailed);
          return;
        }
        stderr := h.value;
        files := files + [stderr];
      }
      ghost var afterErr := Ctx(cwd, os.np, os.nf, piped, files, os.events);
      assert Output(os.w, afterOut, cmd.stderr) == Got(stderr, afterErr);

      var procCwd := if cwd == "." then None else Some(cwd);
      var proc := os.Popen(cmd.argv, stdin.value, stdout, stderr, cmd.env, procCwd);
      if proc.None? {
        error := Some(LaunchFailed);
        return;
      }
      piped := piped + [proc.value];
    }

    /** The end of a pipe group: wait for its processes, then close its files. */
    method FinishGroup(os: Os, commands: seq<nat>, files: seq<Handle>) returns (retval: int)
      requires commands != []
      modifies os
      ensures os.np == old(os.np) && os.nf == old(os.nf)
      ensures os.events == old(os.events) + Waits(commands) + Closes(files)
      ensures retval == os.w.exit(commands[|commands| - 1])
    {
      retval := ExecPipedCommands(os, commands);
      CloseFiles(os, files);
    }

    /** run, with the verbose output off. */
    method Run(os: Os) returns (r: Outcome)
      requires Valid()
      modifies os
      ensures pipeline == []  ==> r == NoStatus && os.events == old(os.events)
      ensures pipeline != [] ==>
        (r, os.events) == Eval(os.w, Ctx(".", old(os.np), old(os.nf), [], [], old(os.events)), PlanFrom(pipeline, 0))
    {
      hide Eval, PlanFrom, LaunchCommand;
      var nodes := pipeline;
      var filesToClose: seq<Handle> := [];
      var pipedCommands: seq<nat> := [];
      var inPipe := false;
      var cwd := ".";
      ghost var i, c := 0, Ctx(".", os.np, os.nf, [], [], os.events);
      ghost var start := c;
      while nodes != []
        invariant i <= |pipeline| && nodes == pipeline[i..]
        invariant pipeline == [] ==> os.events == old(os.events)
        invariant pipeline != [] ==> i < |pipeline| && i % 2 == 0
        invariant inPipe <==> pipedCommands != []
        invariant c == Ctx(cwd, os.np, os.nf, pipedCommands, filesToClose, os.events)
        invariant pipeline != [] ==> Eval(os.w, c, PlanFrom(pipeline, i)) == Eval(os.w, start, PlanFrom(pipeline, 0))
        decreases |nodes|
      {
        assert GoodAt(pipeline, i);
        var node := nodes[0];
        nodes := nodes[1..];
        if node.Chdir? {
          EvalChdirNode(os.w, c, pipeline, i);
          if nodes == [] { return Raised(PopFromEmpty); }
          var nextOp := nodes[0];
          nodes := nodes[1..];
          assert nextOp.And?;
          if node.dir.None? { return Raised(BadDirectory); }
          cwd := JoinPath(cwd, node.dir.value);
          c := ChangeDir(c, node.dir).c;
        } else {
          EvalCommandNode(os.w, c, pipeline, i);
          var error, piped, files := StartCommand(os, node, inPipe, cwd, pipedCommands, filesToClose);
          if error.Some? { return Raised(error.value); }
          pipedCommands, filesToClose := piped, files;
          c := LaunchCommand(os.w, c, node).c;
          if nodes == [] {
            var retval := FinishGroup(os, pipedCommands, filesToClose);
            return Returned(retval);
          }
          var nextNode := nodes[0];
          nodes := nodes[1..];
          if nextNode.Pipe? {
            inPipe := true;
          } else {
            var thisRetval := FinishGroup(os, pipedCommands, filesToClose);
            if nextNode.Or? {
              if thisRetval == 0 { return Returned(thisRetval); }
            } else {
              if thisRetval != 0 { return Returned(thisRetval); }
            }
            inPipe, pipedCommands, filesToClose := false, [], [];
            c := EndGroup(c);
          }
        }
        i := i + 2;
      }
      r := NoStatus;
    }
  }
}
