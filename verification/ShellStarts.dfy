/**
 What run starts, node by node of the parsed list: which processes, in which order and directory,
 connected to what, and where it stops.
 */
module ShellStarts {
  import opened Common
  import opened ShellCmd
  import opened ShellRun
  import opened ShellPipeline
  import opened ShellLeaks

  // ---------- One launch ----------

  /** The handle is a file that was opens under this name among the given events. */
  predicate OpenedAs(h: Handle, name: string, writing: bool, opens: seq<Event>) {
    h.File? && Opened(h.f, name, writing) in opens
  }

  /** The null device has two names and is never opens. */
  predicate IsNull(name: string) { name == "NUL:" || name == "/dev/null" }

  /** Where an output stream of the process goes. */
  predicate Goes(h: Handle, s: Stream, opens: seq<Event>) {
    match s
    case Inherit => h == Inherited
    case ToPipe => h == NewPipe
    case ToStdout => h == SameAsStdout
    case ToFile(name) => if IsNull(name) then h == DevNull else OpenedAs(h, name, true, opens)
  }

  /** Where its standard input comes from: in a pipe, from the process started before it. */
  predicate Comes(h: Handle, p: nat, cmd: Node, piped: bool, opens: seq<Event>)
    requires cmd.Command?
  {
    if piped then p > 0 && h == PipeFrom(p - 1)
    else match cmd.stdin
      case None => h == Inherited
      case Some(name) => OpenedAs(h, name, false, opens)
  }

  function NeedsFile(s: Stream): nat { if s.ToFile? && !IsNull(s.name) then 1 else 0 }

  /** The files that a command needs to have opens. */
  function FilesNeeded(cmd: Node, piped: bool): nat
    requires cmd.Command?
  {
    (if !piped && cmd.stdin.Some? then 1 else 0) + NeedsFile(cmd.stdout) + NeedsFile(cmd.stderr)
  }

  /** The process is the command's, in directory cwd, connected as the command says; opens are the
      events in front of it that open its files, and nothing else. */
  predicate Connected(e: Event, opens: seq<Event>, cmd: Node, piped: bool, cwd: string) {
    && cmd.Command? && e.Started? && e.argv == cmd.argv && e.env == cmd.env
    && Comes(e.stdin, e.p, cmd, piped, opens) && Goes(e.stdout, cmd.stdout, opens) && Goes(e.stderr, cmd.stderr, opens)
    && e.cwd == (if cwd == "." then None else Some(cwd))
    && |opens| == FilesNeeded(cmd, piped) && forall k :: 0 <= k < |opens| ==> opens[k].Opened?
  }

  lemma {:induction false} GoesStill(h: Handle, s: Stream, a: seq<Event>, b: seq<Event>)
    requires Goes(h, s, a) && forall e :: e in a ==> e in b
    ensures Goes(h, s, b)
  {}

  lemma {:induction false} ComesStill(h: Handle, p: nat, cmd: Node, piped: bool, a: seq<Event>, b: seq<Event>)
    requires cmd.Command? && Comes(h, p, cmd, piped, a) && forall e :: e in a ==> e in b
    ensures Comes(h, p, cmd, piped, b)
  {}

  /** From c to d only the files of the given events have been opened. */
  predicate Widened(c: Ctx, d: Ctx, opens: seq<Event>) {
    && d == c.(nf := d.nf, files := d.files, events := c.events + opens) && c.files <= d.files
    && forall k :: 0 <= k < |opens| ==> opens[k].Opened? && File(opens[k].f) in d.files
  }

  lemma {:induction false} WidenedAgain(c: Ctx, d: Ctx, e: Ctx, a: seq<Event>, b: seq<Event>)
    requires Widened(c, d, a) && Widened(d, e, b)
    ensures Widened(c, e, a + b)
  {
    assert c.events + a + b == c.events + (a + b);
    forall k | 0 <= k < |a|
      ensures File(a[k].f) in e.files
    {
      var n :| 0 <= n < |d.files| && d.files[n] == File(a[k].f);
      assert e.files[n] == d.files[n];
    }
  }

  /** Connecting one output opens at most one file. */
  lemma {:induction false} OutputGoes(w: World, c: Ctx, s: Stream) returns (opens: seq<Event>)
    ensures var r := Output(w, c, s);
      Widened(c, r.c, opens) && (r.Got? ==> Goes(r.h, s, opens) && |opens| == NeedsFile(s))
  {
    var r := Output(w, c, s);
    opens := [];
    assert c.events + opens == c.events;
    if s.ToFile? && !IsNull(s.name) && r.Got? {
      opens := [Opened(c.nf, s.name, true)];
      assert r.c.files[|c.files|] == File(c.nf);
    }
  }

  lemma {:induction false} InputComes(w: World, c: Ctx, cmd: Node) returns (opens: seq<Event>)
    requires cmd.Command? && (c.pids != [] ==> c.np > 0 && c.pids[|c.pids| - 1] == c.np - 1)
    ensures var r := Input(w, c, cmd);
      && Widened(c, r.c, opens)
      && (r.Got? ==> Comes(r.h, c.np, cmd, c.pids != [], opens)
                     && |opens| == if c.pids == [] && cmd.stdin.Some? then 1 else 0)
  {
    var r := Input(w, c, cmd);
    opens := [];
    assert c.events + opens == c.events;
    if c.pids == [] && cmd.stdin.Some? && r.Got? {
      opens := [Opened(c.nf, cmd.stdin.value, false)];
      assert r.c.files[|c.files|] == File(c.nf);
    }
  }

  /** The process that a launch starts after opening the command's files. */
  predicate Launched(c: Ctx, d: Ctx, opens: seq<Event>, cmd: Node) {
    && |d.events| == |c.events| + |opens| + 1 && d.events[..|c.events| + |opens|] == c.events + opens
    && Connected(d.events[|c.events| + |opens|], opens, cmd, c.pids != [], c.cwd)
    && d.events[|c.events| + |opens|].p == c.np
    && d == c.(np := c.np + 1, nf := d.nf, pids := c.pids + [c.np], files := d.files, events := d.events)
    && c.files <= d.files && forall k :: 0 <= k < |opens| ==> File(opens[k].f) in d.files
  }

  lemma {:induction false} PopenLaunches(w: World, c: Ctx, d: Ctx, opens: seq<Event>, cmd: Node, i: Handle, o: Handle, e: Handle)
    requires cmd.Command? && Widened(c, d, opens) && |opens| == FilesNeeded(cmd, c.pids != [])
    requires Comes(i, c.np, cmd, c.pids != [], opens) && Goes(o, cmd.stdout, opens) && Goes(e, cmd.stderr, opens)
    ensures var r := Popen(w, d, cmd, i, o, e);
      && (r.Ok? ==> Launched(c, r.c, opens, cmd))
      && (r.Fail? ==> r.c.events == c.events + opens)
  {
    hide Comes, Goes, FilesNeeded;
  }

  /** A launch opens the command's files and then starts its process, or fails in front of that. */
  lemma {:induction false} LaunchConnects(w: World, c: Ctx, cmd: Node) returns (opens: seq<Event>)
    requires cmd.Command? && (c.pids != [] ==> c.np > 0 && c.pids[|c.pids| - 1] == c.np - 1)
    ensures forall k :: 0 <= k < |opens| ==> opens[k].Opened?
    ensures var r := LaunchCommand(w, c, cmd);
      if r.Ok? then Launched(c, r.c, opens, cmd) else r.c.events == c.events + opens
  {
    var a := InputComes(w, c, cmd);
    var i := Input(w, c, cmd);
    opens := a;
    if i.Got? {
      var b := OutputGoes(w, i.c, cmd.stdout);
      var o := Output(w, i.c, cmd.stdout);
      opens := a + b;
      WidenedAgain(c, i.c, o.c, a, b);
      if o.Got? {
        var d := OutputGoes(w, o.c, cmd.stderr);
        var e := Output(w, o.c, cmd.stderr);
        opens := a + b + d;
        WidenedAgain(c, o.c, e.c, a + b, d);
        if e.Got? {
          ComesStill(i.h, c.np, cmd, c.pids != [], a, opens);
          GoesStill(o.h, cmd.stdout, b, opens);
          GoesStill(e.h, cmd.stderr, d, opens);
          PopenLaunches(w, c, e.c, opens, cmd, i.h, o.h, e.h);
        }
      }
    }
  }

  // ---------- A whole run ----------

  /** How many of the first i nodes are commands. */
  function CommandsBefore(nodes: seq<Node>, i: nat): nat
    requires i <= |nodes|
  {
    if i == 0 then 0 else CommandsBefore(nodes, i - 1) + if nodes[i - 1].Command? then 1 else 0
  }

  /** The directory that the cds in front of node i lead to. */
  function CwdAt(nodes: seq<Node>, i: nat): string
    requires i <= |nodes|
  {
    if i == 0 then "."
    else if nodes[i - 1].Chdir? && nodes[i - 1].dir.Some? then JoinPath(CwdAt(nodes, i - 1), nodes[i - 1].dir.value)
    else CwdAt(nodes, i - 1)
  }

  function Starts(events: seq<Event>): nat
    decreases |events|
  {
    if events == [] then 0 else Starts(events[..|events| - 1]) + if events[|events| - 1].Started? then 1 else 0
  }

  lemma {:induction false} StartsMore(events: seq<Event>, more: seq<Event>)
    requires forall k :: 0 <= k < |more| ==> !more[k].Started?
    ensures Starts(events + more) == Starts(events)
    decreases |more|
  {
    if more == [] {
      assert events + more == events;
    } else {
      var n := |more| - 1;
      assert (events + more)[..|events| + n] == events + more[..n];
      StartsMore(events, more[..n]);
    }
  }

  /** Nothing of what was started or opened by these events is still there. */
  ghost predicate AllEnded(events: seq<Event>) {
    && (forall k :: 0 <= k < |events| && events[k].Started? ==> Waited(events[k].p) in events)
    && (forall k :: 0 <= k < |events| && events[k].Opened? ==> Closed(events[k].f) in events)
  }

  /** Event j starts the process of the command at node i, which is the next one of the list; from
      s on its files are opened; and unless it reads a pipe, everything before s has ended. */
  ghost predicate StartsNode(nodes: seq<Node>, events: seq<Event>, j: nat, s: nat, i: nat) {
    && s <= j < |events| && i < |nodes|
    && Connected(events[j], events[s..j], nodes[i], AfterPipe(nodes, i), CwdAt(nodes, i))
    && events[j].p == CommandsBefore(nodes, i) == Starts(events[..j])
    && (!AfterPipe(nodes, i) ==> AllEnded(events[..s]))
  }

  /** Every process of the run is that of a node. */
  ghost predicate StartsNodes(nodes: seq<Node>, events: seq<Event>) {
    forall j: nat :: j < |events| && events[j].Started? ==> exists s: nat, i: nat :: StartsNode(nodes, events, j, s, i)
  }

  lemma {:induction false} StartsNodeStill(nodes: seq<Node>, events: seq<Event>, more: seq<Event>, j: nat, s: nat, i: nat)
    requires StartsNode(nodes, events, j, s, i)
    ensures StartsNode(nodes, events + more, j, s, i)
  {
    var all := events + more;
    assert all[s..j] == events[s..j] && all[..j] == events[..j] && all[..s] == events[..s];
  }

  lemma {:induction false} NoMoreStarts(nodes: seq<Node>, events: seq<Event>, more: seq<Event>)
    requires StartsNodes(nodes, events) && forall k :: 0 <= k < |more| ==> !more[k].Started?
    ensures StartsNodes(nodes, events + more)
  {
    hide StartsNode;
    forall j: nat | j < |events + more| && (events + more)[j].Started?
      ensures exists s: nat, i: nat :: StartsNode(nodes, events + more, j, s, i)
    {
      assert j < |events| && events[j].Started?;
      var s: nat, i: nat :| StartsNode(nodes, events, j, s, i);
      StartsNodeStill(nodes, events, more, j, s, i);
    }
  }

  lemma {:induction false} NewStart(nodes: seq<Node>, events: seq<Event>, opens: seq<Event>, e: Event, i: nat)
    requires i < |nodes| && Connected(e, opens, nodes[i], AfterPipe(nodes, i), CwdAt(nodes, i))
    requires e.p == CommandsBefore(nodes, i) == Starts(events) && (!AfterPipe(nodes, i) ==> AllEnded(events))
    ensures var all := events + opens + [e];
      StartsNode(nodes, all, |events| + |opens|, |events|, i) && Starts(all) == Starts(events) + 1
  {
    hide Comes, Goes, FilesNeeded, AllEnded, AfterPipe, CwdAt, CommandsBefore;
    var before := events + opens;
    var all := before + [e];
    StartsMore(events, opens);
    assert all[..|before|] == before && all[|events|..|before|] == opens && all[..|events|] == events;
  }

  lemma {:induction false} OneMoreStart(nodes: seq<Node>, events: seq<Event>, opens: seq<Event>, e: Event, i: nat)
    requires StartsNodes(nodes, events) && i < |nodes|
    requires Connected(e, opens, nodes[i], AfterPipe(nodes, i), CwdAt(nodes, i))
    requires e.p == CommandsBefore(nodes, i) == Starts(events) && (!AfterPipe(nodes, i) ==> AllEnded(events))
    ensures StartsNodes(nodes, events + opens + [e]) && Starts(events + opens + [e]) == Starts(events) + 1
  {
    NoMoreStarts(nodes, events, opens);
    NewStart(nodes, events, opens, e, i);
    hide Connected, StartsNode, Starts, AllEnded, AfterPipe, CwdAt, CommandsBefore;
    LastStarts(nodes, events + opens, e, |events|, i);
  }

  lemma {:induction false} LastStarts(nodes: seq<Node>, before: seq<Event>, e: Event, s: nat, i: nat)
    requires StartsNodes(nodes, before) && StartsNode(nodes, before + [e], |before|, s, i)
    ensures StartsNodes(nodes, before + [e])
  {
    hide StartsNode;
    var all := before + [e];
    forall j: nat | j < |all| && all[j].Started?
      ensures exists s: nat, n: nat :: StartsNode(nodes, all, j, s, n)
    {
      if j < |before| {
        assert all[j] == before[j];
        var t: nat, n: nat :| StartsNode(nodes, before, j, t, n);
        StartsNodeStill(nodes, before, [e], j, t, n);
      }
    }
  }

  /** Everything started or opened so far has ended or belongs to the group in progress. */
  ghost predicate EndedOrHeld(c: Ctx) {
    && (forall k :: 0 <= k < |c.events| && c.events[k].Started? ==>
          c.events[k].p in c.pids || Waited(c.events[k].p) in c.events)
    && (forall k :: 0 <= k < |c.events| && c.events[k].Opened? ==>
          File(c.events[k].f) in c.files || Closed(c.events[k].f) in c.events)
  }

  lemma {:induction false} ClosesAll(files: seq<Handle>)
    ensures forall f :: File(f) in files ==> Closed(f) in Closes(files)
    ensures forall k :: 0 <= k < |Closes(files)| ==> Closes(files)[k].Closed?
    decreases |files|
  {
    if files != [] {
      ClosesAll(files[1..]);
      assert files == [files[0]] + files[1..];
    }
  }

  lemma {:induction false} GroupEnds(nodes: seq<Node>, c: Ctx)
    requires EndedOrHeld(c) && StartsNodes(nodes, c.events)
    ensures AllEnded(EndGroup(c).events) && EndedOrHeld(EndGroup(c))
    ensures StartsNodes(nodes, EndGroup(c).events) && Starts(EndGroup(c).events) == Starts(c.events)
  {
    var more := Waits(c.pids) + Closes(c.files);
    ClosesAll(c.files);
    assert EndGroup(c).events == c.events + more;
    forall p: nat | p in c.pids
      ensures Waited(p) in more
    {
      var k :| 0 <= k < |c.pids| && c.pids[k] == p;
      assert more[k] == Waited(p);
    }
    forall k | 0 <= k < |more|
      ensures !more[k].Started? && !more[k].Opened?
    {
      if k >= |c.pids| { assert more[k] == Closes(c.files)[k - |c.pids|]; }
    }
    NoMoreStarts(nodes, c.events, more);
    StartsMore(c.events, more);
    hide StartsNodes, Starts, Closes;
    forall k | 0 <= k < |c.events + more|
      ensures (c.events + more)[k].Started? ==> Waited((c.events + more)[k].p) in c.events + more
      ensures (c.events + more)[k].Opened? ==> Closed((c.events + more)[k].f) in c.events + more
    {
      if k < |c.events| { assert (c.events + more)[k] == c.events[k]; }
    }
  }

  /** The state in which the run reaches node i. */
  ghost predicate AtNode(c: Ctx, nodes: seq<Node>, i: nat) {
    && WellFormed(nodes) && i < |nodes| && i % 2 == 0
    && c.cwd == CwdAt(nodes, i) && c.np == CommandsBefore(nodes, i) == Starts(c.events)
    && (c.pids != [] <==> AfterPipe(nodes, i))
    && (c.pids != [] ==> c.np > 0 && c.pids[|c.pids| - 1] == c.np - 1)
    && (c.pids == [] ==> c.files == [])
    && EndedOrHeld(c) && StartsNodes(nodes, c.events)
  }

  /** A launch at node i adds its process, or only opens files. */
  lemma {:induction false} LaunchAtNode(w: World, c: Ctx, nodes: seq<Node>, i: nat)
    requires AtNode(c, nodes, i) && nodes[i].Command?
    ensures var r := LaunchCommand(w, c, nodes[i]);
      && StartsNodes(nodes, r.c.events) && (r.Fail? ==> Starts(r.c.events) == c.np)
      && (r.Ok? ==>
            && EndedOrHeld(r.c) && Starts(r.c.events) == c.np + 1
            && r.c.np == c.np + 1 && r.c.pids == c.pids + [c.np] && r.c.cwd == c.cwd)
  {
    var opens := LaunchConnects(w, c, nodes[i]);
    var r := LaunchCommand(w, c, nodes[i]);
    if r.Ok? {
      var e := r.c.events[|c.events| + |opens|];
      assert r.c.events == c.events + opens + [e];
      OneMoreStart(nodes, c.events, opens, e, i);
      HeldMore(c, r.c, opens, nodes[i]);
    } else {
      NoMoreStarts(nodes, c.events, opens);
      StartsMore(c.events, opens);
    }
  }

  lemma {:induction false} HeldMore(c: Ctx, d: Ctx, opens: seq<Event>, cmd: Node)
    requires EndedOrHeld(c) && Launched(c, d, opens, cmd)
    ensures EndedOrHeld(d)
  {
    hide Comes, Goes, FilesNeeded;
    var n := |c.events| + |opens|;
    assert forall e :: e in c.events ==> e in d.events by {
      forall k | 0 <= k < |c.events|
        ensures c.events[k] in d.events
      {
        assert d.events[..n][k] == d.events[k];
      }
    }
    assert forall h :: h in c.files ==> h in d.files;
    forall k | 0 <= k < |d.events|
      ensures d.events[k].Started? ==> d.events[k].p in d.pids || Waited(d.events[k].p) in d.events
      ensures d.events[k].Opened? ==> File(d.events[k].f) in d.files || Closed(d.events[k].f) in d.events
    {
      if k < n { assert d.events[k] == d.events[..n][k]; }
      if k < |c.events| {
        assert d.events[k] == c.events[k];
      } else if k < n {
        assert d.events[k] == opens[k - |c.events|];
      }
    }
  }

  /** The operators in front of node i let the run go on. */
  ghost predicate Passed(w: World, nodes: seq<Node>, i: nat)
    requires i <= |nodes|
  {
    forall k :: 0 < k < i && nodes[k - 1].Command? && CommandsBefore(nodes, k) > 0 ==>
      var status := w.exit(CommandsBefore(nodes, k) - 1);
      (nodes[k].And? ==> status == 0) && (nodes[k].Or? ==> status != 0)
  }

  /** The run has started the commands up to node i and no more, and returns the exit status of that
      one: it is the last node, or the operator after it ends the run. */
  ghost predicate StopsAt(w: World, nodes: seq<Node>, started: nat, status: int, i: nat) {
    && i < |nodes| && nodes[i].Command? && started == CommandsBefore(nodes, i) + 1 && Passed(w, nodes, i)
    && status == w.exit(CommandsBefore(nodes, i))
    && (i + 1 == |nodes| || (nodes[i + 1].And? && status != 0) || (nodes[i + 1].Or? && status == 0))
  }

  /** The run has got to node i, having started all commands in front of it, and raises there. */
  ghost predicate RaisesAt(w: World, nodes: seq<Node>, started: nat, error: Error, i: nat) {
    && i < |nodes| && started == CommandsBefore(nodes, i) && Passed(w, nodes, i)
    && match error
       case PopFromEmpty => nodes[i].Chdir? && i + 1 == |nodes|
       case BadDirectory => nodes[i].Chdir? && i + 1 < |nodes| && nodes[i].dir.None?
       case OpenFailed => nodes[i].Command? && exists f: nat :: w.openFails(f)
       case LaunchFailed => nodes[i].Command? && w.launchFails(CommandsBefore(nodes, i))
  }

  /** What holds of the whole run. */
  ghost predicate RunsFrom(w: World, nodes: seq<Node>, result: (Outcome, seq<Event>)) {
    && StartsNodes(nodes, result.1)
    && match result.0
       case Returned(status) => exists i: nat :: StopsAt(w, nodes, Starts(result.1), status, i)
       case Raised(error) => exists i: nat :: RaisesAt(w, nodes, Starts(result.1), error, i)
       case NoStatus => false
  }

  lemma {:induction false} NextCounts(nodes: seq<Node>, i: nat)
    requires WellFormed(nodes) && i % 2 == 0 && i + 2 < |nodes|
    ensures CommandsBefore(nodes, i + 2) == CommandsBefore(nodes, i) + if nodes[i].Command? then 1 else 0
    ensures CommandsBefore(nodes, i + 1) == CommandsBefore(nodes, i + 2)
    ensures CwdAt(nodes, i + 2)
         == if nodes[i].Chdir? && nodes[i].dir.Some? then JoinPath(CwdAt(nodes, i), nodes[i].dir.value) else CwdAt(nodes, i)
  {
    assert GoodAt(nodes, i) && GoodAt(nodes, i + 1);
    assert CwdAt(nodes, i + 2) == CwdAt(nodes, i + 1) && CommandsBefore(nodes, i + 2) == CommandsBefore(nodes, i + 1);
  }

  lemma {:induction false} PassedMore(w: World, nodes: seq<Node>, i: nat)
    requires WellFormed(nodes) && i % 2 == 0 && i + 2 < |nodes| && Passed(w, nodes, i)
    requires nodes[i].Command? ==>
      var status := w.exit(CommandsBefore(nodes, i));
      (nodes[i + 1].And? ==> status == 0) && (nodes[i + 1].Or? ==> status != 0)
    ensures Passed(w, nodes, i + 2)
  {
    NextCounts(nodes, i);
    assert GoodAt(nodes, i) && GoodAt(nodes, i + 1);
    assert i > 0 ==> GoodAt(nodes, i - 1);
    hide CommandsBefore;
  }

  lemma {:induction false} CdAtNode(c: Ctx, nodes: seq<Node>, i: nat)
    requires AtNode(c, nodes, i) && nodes[i].Chdir? && nodes[i].dir.Some? && i + 2 < |nodes|
    ensures AtNode(ChangeDir(c, nodes[i].dir).c, nodes, i + 2)
  {
    hide StartsNodes, Starts, AfterPipe, CommandsBefore, CwdAt, JoinPath;
    NextCounts(nodes, i);
    NextAfterPipe(nodes, i);
  }

  lemma {:induction false} PipeAtNode(w: World, c: Ctx, nodes: seq<Node>, i: nat)
    requires AtNode(c, nodes, i) && nodes[i].Command? && i + 2 < |nodes| && nodes[i + 1].Pipe?
    requires LaunchCommand(w, c, nodes[i]).Ok?
    ensures AtNode(LaunchCommand(w, c, nodes[i]).c, nodes, i + 2)
  {
    hide StartsNodes, Starts, AfterPipe, CommandsBefore, CwdAt, EndedOrHeld, LaunchCommand;
    NextCounts(nodes, i);
    NextAfterPipe(nodes, i);
    LaunchAtNode(w, c, nodes, i);
  }

  lemma {:induction false} EndAtNode(w: World, c: Ctx, nodes: seq<Node>, i: nat)
    requires AtNode(c, nodes, i) && nodes[i].Command? && i + 2 < |nodes| && !nodes[i + 1].Pipe?
    requires LaunchCommand(w, c, nodes[i]).Ok?
    ensures AtNode(EndGroup(LaunchCommand(w, c, nodes[i]).c), nodes, i + 2)
  {
    hide StartsNodes, Starts, AfterPipe, CommandsBefore, CwdAt, EndedOrHeld, LaunchCommand;
    NextCounts(nodes, i);
    NextAfterPipe(nodes, i);
    LaunchAtNode(w, c, nodes, i);
    GroupEnds(nodes, LaunchCommand(w, c, nodes[i]).c);
  }

  /** From node i on, only commands of the list are started, and the run stops where it should. */
  lemma {:induction false} RunsOn(w: World, c: Ctx, nodes: seq<Node>, i: nat)
    requires AtNode(c, nodes, i) && Passed(w, nodes, i)
    ensures RunsFrom(w, nodes, Eval(w, c, PlanFrom(nodes, i)))
    decreases |nodes| - i, 1
  {
    assert GoodAt(nodes, i);
    hide Eval, PlanFrom, Passed, RunsFrom;
    if nodes[i].Chdir? {
      RunsOnFromCd(w, c, nodes, i);
    } else {
      RunsOnFromCommand(w, c, nodes, i);
    }
  }

  /** A cd that is last or has no directory. */
  lemma {:induction false} CdRaises(w: World, c: Ctx, nodes: seq<Node>, i: nat)
    requires AtNode(c, nodes, i) && Passed(w, nodes, i) && nodes[i].Chdir?
    ensures i + 1 == |nodes| ==> RunsFrom(w, nodes, (Raised(PopFromEmpty), c.events))
    ensures i + 1 < |nodes| && nodes[i].dir.None? ==> RunsFrom(w, nodes, (Raised(BadDirectory), c.events))
  {
    hide StartsNodes, Starts, EndedOrHeld, AfterPipe, Passed, CommandsBefore, CwdAt;
    if i + 1 == |nodes| {
      assert RaisesAt(w, nodes, Starts(c.events), PopFromEmpty, i);
    } else if nodes[i].dir.None? {
      assert RaisesAt(w, nodes, Starts(c.events), BadDirectory, i);
    }
  }

  lemma {:induction false} RunsOnFromCd(w: World, c: Ctx, nodes: seq<Node>, i: nat)
    requires AtNode(c, nodes, i) && Passed(w, nodes, i) && nodes[i].Chdir?
    ensures RunsFrom(w, nodes, Eval(w, c, PlanFrom(nodes, i)))
    decreases |nodes| - i, 0
  {
    hide Eval, PlanFrom, RunsFrom, StartsNodes, Starts, EndedOrHeld, AfterPipe, Passed, CommandsBefore, CwdAt;
    EvalChdirNode(w, c, nodes, i);
    CdRaises(w, c, nodes, i);
    if i + 1 < |nodes| && nodes[i].dir.Some? {
      CdAtNode(c, nodes, i);
      PassedMore(w, nodes, i);
      RunsOn(w, ChangeDir(c, nodes[i].dir).c, nodes, i + 2);
    }
  }

  lemma {:induction false} StopsHere(w: World, c: Ctx, nodes: seq<Node>, i: nat)
    requires AtNode(c, nodes, i) && Passed(w, nodes, i) && nodes[i].Command?
    requires LaunchCommand(w, c, nodes[i]).Ok? && LaunchCommand(w, c, nodes[i]).c.pids != []
    requires var status := GroupStatus(w, LaunchCommand(w, c, nodes[i]).c);
      i + 1 == |nodes| || (nodes[i + 1].And? && status != 0) || (nodes[i + 1].Or? && status == 0)
    ensures var d := LaunchCommand(w, c, nodes[i]).c;
      RunsFrom(w, nodes, (Returned(GroupStatus(w, d)), EndGroup(d).events))
  {
    LaunchAtNode(w, c, nodes, i);
    hide StartsNodes, Starts, EndedOrHeld, AfterPipe, Passed, CwdAt, LaunchCommand;
    var d := LaunchCommand(w, c, nodes[i]).c;
    GroupEnds(nodes, d);
    assert StopsAt(w, nodes, Starts(EndGroup(d).events), GroupStatus(w, d), i);
  }

  lemma {:induction false} RaisesHere(w: World, c: Ctx, nodes: seq<Node>, i: nat)
    requires AtNode(c, nodes, i) && Passed(w, nodes, i) && nodes[i].Command? && LaunchCommand(w, c, nodes[i]).Fail?
    ensures var r := LaunchCommand(w, c, nodes[i]); RunsFrom(w, nodes, (Raised(r.error), r.c.events))
  {
    LaunchAtNode(w, c, nodes, i);
    LaunchFailsFor(w, c, nodes[i]);
    hide LaunchCommand, StartsNodes, Starts, EndedOrHeld, AfterPipe, Passed, CwdAt, CommandsBefore;
    var r := LaunchCommand(w, c, nodes[i]);
    assert RaisesAt(w, nodes, Starts(r.c.events), r.error, i);
  }

  lemma {:induction false} LaunchFailsFor(w: World, c: Ctx, cmd: Node)
    requires cmd.Command? && LaunchCommand(w, c, cmd).Fail?
    ensures match LaunchCommand(w, c, cmd).error
      case OpenFailed => exists f: nat :: w.openFails(f)
      case LaunchFailed => w.launchFails(c.np)
      case _ => false
  {}

  lemma {:induction false} StatusHere(w: World, c: Ctx, nodes: seq<Node>, i: nat)
    requires AtNode(c, nodes, i) && nodes[i].Command? && LaunchCommand(w, c, nodes[i]).Ok?
    ensures var d := LaunchCommand(w, c, nodes[i]).c;
      d.pids != [] && GroupStatus(w, d) == w.exit(CommandsBefore(nodes, i))
  {
    LaunchAtNode(w, c, nodes, i);
  }

  lemma {:induction false} RunsOnFromCommand(w: World, c: Ctx, nodes: seq<Node>, i: nat)
    requires AtNode(c, nodes, i) && Passed(w, nodes, i) && nodes[i].Command?
    ensures RunsFrom(w, nodes, Eval(w, c, PlanFrom(nodes, i)))
    decreases |nodes| - i, 0
  {
    hide Eval, PlanFrom, StartsNodes, EndedOrHeld, AfterPipe, Passed, RunsFrom, CommandsBefore, CwdAt, Starts,
         LaunchCommand, EndGroup, GroupStatus;
    EvalCommandNode(w, c, nodes, i);
    var r := LaunchCommand(w, c, nodes[i]);
    if r.Fail? {
      RaisesHere(w, c, nodes, i);
    } else {
      StatusHere(w, c, nodes, i);
      if i + 1 == |nodes| {
        StopsHere(w, c, nodes, i);
      } else if nodes[i + 1].Pipe? {
        PipeAtNode(w, c, nodes, i);
        PassedMore(w, nodes, i);
        RunsOn(w, r.c, nodes, i + 2);
      } else if Proceeds(nodes[i + 1], GroupStatus(w, r.c)) {
        EndAtNode(w, c, nodes, i);
        PassedMore(w, nodes, i);
        RunsOn(w, EndGroup(r.c), nodes, i + 2);
      } else {
        StopsHere(w, c, nodes, i);
      }
    }
  }

  lemma {:induction false} FreshAtNode(nodes: seq<Node>)
    requires WellFormed(nodes)
    ensures AtNode(FRESH, nodes, 0)
  {}

  /** In every run of a parsed list the processes started are those of the first commands of the
      list, in order and each connected as its node says; a run that returns stops at the last
      command or at the first operator that does not let it go on; and one that raises has come to a
      cd that cannot be done or a command that cannot be started. */
  lemma {:induction false} RunStarts(w: World, tokens: seq<string>)
    requires ParseTokens(tokens).Some?
    ensures WellFormed(ParseTokens(tokens).value)
    ensures RunsFrom(w, ParseTokens(tokens).value, Eval(w, FRESH, PlanFrom(ParseTokens(tokens).value, 0)))
  {
    ParsedIsWellFormed(tokens);
    FreshAtNode(ParseTokens(tokens).value);
    RunsOn(w, FRESH, ParseTokens(tokens).value, 0);
  }

  // ---------- Where a cd leads ----------

  /** A relative directory, named without a slash at either end. */
  predicate Plain(dir: string) {
    dir != "" && dir[0] != '/' && dir[|dir| - 1] != '/'
  }

  /** The directories of the cds in front of node i, each after a slash. */
  function Below(nodes: seq<Node>, i: nat): string
    requires i <= |nodes|
  {
    if i == 0 then ""
    else Below(nodes, i - 1) + if nodes[i - 1].Chdir? && nodes[i - 1].dir.Some? then "/" + nodes[i - 1].dir.value else ""
  }

  /** Relative directories add up below the current one. */
  lemma {:induction false} RelativeCds(nodes: seq<Node>, i: nat)
    requires i <= |nodes| && forall k :: 0 <= k < i && nodes[k].Chdir? && nodes[k].dir.Some? ==> Plain(nodes[k].dir.value)
    ensures CwdAt(nodes, i) == "." + Below(nodes, i)
    ensures Below(nodes, i) == "" || Below(nodes, i)[|Below(nodes, i)| - 1] != '/'
    decreases i
  {
    if i > 0 {
      RelativeCds(nodes, i - 1);
      assert "." + (Below(nodes, i - 1) + "") == "." + Below(nodes, i - 1);
    }
  }

  /** An absolute directory replaces it, and no slash is doubled. */
  lemma {:induction false} AbsoluteCd(nodes: seq<Node>, i: nat, dir: string)
    requires i < |nodes| && nodes[i] == Chdir(Some(dir)) && dir != ""
    ensures dir[0] == '/' ==> CwdAt(nodes, i + 1) == dir
    ensures var cwd := CwdAt(nodes, i); cwd != "" && cwd[|cwd| - 1] == '/' && Plain(dir) ==> CwdAt(nodes, i + 1) == cwd + dir
  {}
}
