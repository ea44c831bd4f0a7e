/**
 When does run raise, and when does it agree with the left-associative reading of AND-OR lists
 in section 2.9.3 of POSIX.1-2017, Shell Command Language?
 */
module ShellPosix {
  import opened Common
  import opened ShellCmd
  import opened ShellRun

  // ---------- Raising ----------

  /** No attempt to open a file or to start a process fails. */
  ghost predicate Friendly(w: World) {
    forall n: nat :: !w.launchFails(n) && !w.openFails(n)
  }

  /** No attempt to open a file fails, nor the next m attempts to start a process, from n on. */
  ghost predicate FriendlyFor(w: World, n: nat, m: nat) {
    (forall f: nat :: !w.openFails(f)) && forall k: nat :: n <= k < n + m ==> !w.launchFails(k)
  }

  predicate GoodDirs(dirs: seq<Option<string>>) {
    forall i :: 0 <= i < |dirs| ==> dirs[i].Some?
  }

  predicate GoodGroup(g: seq<StageOk>) {
    forall i :: 0 <= i < |g| ==> GoodDirs(g[i].dirs)
  }

  predicate GoodPlan(p: Plan) {
    match p
    case Final(g) => GoodGroup(g)
    case Branch(g, _, rest) => GoodGroup(g) && GoodPlan(rest)
    case Stuck(_, _) => false
  }

  /** Every cd has a directory and something after it. */
  predicate CdsComplete(nodes: seq<Node>, from: nat) {
    forall i :: from <= i < |nodes| && nodes[i].Chdir? ==> nodes[i].dir.Some? && i + 1 < |nodes|
  }

  lemma {:induction false} PlanGoodIff(nodes: seq<Node>, i: nat)
    requires WellFormed(nodes) && i < |nodes| && i % 2 == 0
    ensures GoodPlan(PlanFrom(nodes, i)) <==> CdsComplete(nodes, i)
    decreases |nodes| - i
  {
    assert GoodAt(nodes, i);
    if i + 1 < |nodes| {
      assert GoodAt(nodes, i + 1);
      PlanGoodIff(nodes, i + 2);
      var p := PlanFrom(nodes, i + 2);
      assert CdsComplete(nodes, i) <==> ((nodes[i].Chdir? ==> nodes[i].dir.Some?) && CdsComplete(nodes, i + 2));
      var q := PlanFrom(nodes, i);
      if nodes[i].Chdir? {
        GoodWithDir(nodes[i].dir, p);
      } else if nodes[i + 1].Pipe? {
        assert q.group[1..] == p.group;
        GoodCons(Stage([], nodes[i]), p.group);
      }
    }
  }

  lemma {:induction false} GoodCons(s: StageOk, g: seq<StageOk>)
    ensures GoodGroup([s] + g) <==> GoodDirs(s.dirs) && GoodGroup(g)
  {
    if GoodGroup([s] + g) {
      assert ([s] + g)[0] == s;
      forall i | 0 <= i < |g|
        ensures GoodDirs(g[i].dirs)
      {
        assert ([s] + g)[i + 1] == g[i];
      }
    }
  }

  lemma {:induction false} GoodWithDir(d: Option<string>, p: Plan)
    requires ProperPlan(p)
    ensures GoodPlan(WithDir(d, p)) <==> d.Some? && GoodPlan(p)
  {
    if !p.Stuck? {
      var s := p.group[0];
      var t := s.(dirs := [d] + s.dirs);
      GoodCons(t, p.group[1..]);
      assert p.group == [s] + p.group[1..];
      GoodCons(s, p.group[1..]);
      if GoodDirs(t.dirs) {
        assert t.dirs[0] == d;
        forall i | 0 <= i < |s.dirs|
          ensures s.dirs[i].Some?
        {
          assert t.dirs[i + 1] == s.dirs[i];
        }
      }
    }
  }

  lemma {:induction false} ChangeDirsOk(c: Ctx, dirs: seq<Option<string>>)
    ensures ChangeDirs(c, dirs).Ok? <==> GoodDirs(dirs)
    ensures ChangeDirs(c, dirs).c.(cwd := c.cwd) == c
    decreases |dirs|
  {
    if dirs != [] && dirs[0].Some? {
      ChangeDirsOk(ChangeDir(c, dirs[0]).c, dirs[1..]);
      assert dirs == [dirs[0]] + dirs[1..];
    }
  }

  lemma {:induction false} LaunchCommandOk(w: World, c: Ctx, cmd: Node)
    requires FriendlyFor(w, c.np, 1) && cmd.Command?
    ensures var r := LaunchCommand(w, c, cmd);
      r.Ok? && r.c.np == c.np + 1 && r.c.pids == c.pids + [c.np] && |r.c.events| > |c.events|
  {
    assert !w.openFails(c.nf) && !w.openFails(c.nf + 1) && !w.openFails(c.nf + 2) && !w.launchFails(c.np);
  }

  lemma {:induction false} LaunchStageOk(w: World, c: Ctx, s: StageOk)
    requires FriendlyFor(w, c.np, 1)
    ensures var r := LaunchStage(w, c, s);
      && (r.Ok? <==> GoodDirs(s.dirs))
      && (r.Ok? ==> r.c.np == c.np + 1 && r.c.pids == c.pids + [c.np] && |r.c.events| > |c.events|)
  {
    ChangeDirsOk(c, s.dirs);
    hide GoodDirs;
    if GoodDirs(s.dirs) {
      LaunchCommandOk(w, ChangeDirs(c, s.dirs).c, s.cmd);
    }
  }

  /** Where nothing fails a group starts completely exactly when its cds are complete. */
  lemma {:induction false} LaunchGroupOk(w: World, c: Ctx, g: seq<StageOk>)
    requires FriendlyFor(w, c.np, |g|)
    ensures LaunchGroup(w, c, g).Ok? <==> GoodGroup(g)
    ensures GoodGroup(g) ==>
      var d := LaunchGroup(w, c, g).c;
      && d.np == c.np + |g|
      && (g != [] ==> d.pids != [] && d.pids[|d.pids| - 1] == d.np - 1)
      && |d.events| >= |c.events| + |g|
    decreases |g|
  {
    if g != [] {
      GoodCons(g[0], g[1..]);
      assert g == [g[0]] + g[1..];
      LaunchStageOk(w, c, g[0]);
      hide GoodGroup, GoodDirs, LaunchStage;
      if GoodDirs(g[0].dirs) {
        LaunchGroupOk(w, LaunchStage(w, c, g[0]).c, g[1..]);
      }
    }
  }

  /** Exit codes that make every operator of the plan proceed; n is the next process number. */
  ghost function Leading(p: Plan, n: nat): nat -> int {
    match p
    case Branch(g, op, rest) =>
      var later := Leading(rest, n + |g|);
      k => if k < n + |g| then (if op.And? then 0 else 1) else later(k)
    case _ => k => 0
  }

  lemma {:induction false} GoodPlanReturns(w: World, c: Ctx, p: Plan)
    requires ProperPlan(p) && GoodPlan(p) && Friendly(w)
    ensures Eval(w, c, p).0.Returned?
    decreases p
  {
    LaunchGroupOk(w, c, p.group);
    if p.Branch? {
      GoodPlanReturns(w, EndGroup(LaunchGroup(w, c, p.group).c), p.rest);
    }
  }

  lemma {:induction false} BadPlanRaises(w: World, c: Ctx, p: Plan)
    requires ProperPlan(p) && !GoodPlan(p) && Friendly(w)
    requires forall k: nat :: k >= c.np ==> w.exit(k) == Leading(p, c.np)(k)
    ensures Eval(w, c, p).0.Raised?
    decreases p
  {
    LaunchGroupOk(w, c, p.group);
    if p.Branch? && GoodGroup(p.group) {
      var d := LaunchGroup(w, c, p.group).c;
      assert d.np - 1 >= c.np;
      assert w.exit(d.np - 1) == Leading(p, c.np)(d.np - 1);
      forall k: nat | k >= d.np
        ensures w.exit(k) == Leading(p.rest, d.np)(k)
      {
        assert w.exit(k) == Leading(p, c.np)(k);
      }
      BadPlanRaises(w, EndGroup(d), p.rest);
    }
  }

  /** On a system where nothing fails, run is sure to return a status exactly when every cd of
      the parsed list has a directory and is not the last node. */
  lemma {:induction false} ReturnsIffCdsComplete(nodes: seq<Node>)
    requires WellFormed(nodes)
    ensures (forall w: World :: Friendly(w) ==> Eval(w, FRESH, PlanFrom(nodes, 0)).0.Returned?)
       <==> CdsComplete(nodes, 0)
  {
    var p := PlanFrom(nodes, 0);
    PlanGoodIff(nodes, 0);
    if GoodPlan(p) {
      forall w: World | Friendly(w)
        ensures Eval(w, FRESH, p).0.Returned?
      {
        GoodPlanReturns(w, FRESH, p);
      }
    } else {
      var w := World(Leading(p, 0), _ => false, _ => false);
      assert Friendly(w);
      BadPlanRaises(w, FRESH, p);
    }
  }

  // ---------- The left-associative meaning ----------

  /** An AND-OR list in the grammar of section 2.10.2: operators of one precedence, grouped to the left. */
  datatype AndOr = Single(group: seq<StageOk>) | Extend(left: AndOr, op: Node, right: seq<StageOk>)

  datatype Status = Done(status: int, c: Ctx) | Aborted(error: Error, events: seq<Event>)

  function RunGroup(w: World, c: Ctx, g: seq<StageOk>): Status
    requires g != []
  {
    match LaunchGroup(w, c, g)
    case Fail(e, c1) => Aborted(e, c1.events)
    case Ok(c1) => LaunchedSome(w, c, g); Done(GroupStatus(w, c1), EndGroup(c1))
  }

  predicate ProperList(a: AndOr) {
    match a
    case Single(g) => g != []
    case Extend(l, op, g) => ProperList(l) && g != [] && (op.And? || op.Or?)
  }

  /** An AND list runs its right side if the left side succeeds, an OR list if it fails; the
      status is that of the last group run. */
  function EvalLeft(w: World, c: Ctx, a: AndOr): Status
    requires ProperList(a)
  {
    match a
    case Single(g) => RunGroup(w, c, g)
    case Extend(l, op, g) =>
      match EvalLeft(w, c, l)
      case Aborted(e, events) => Aborted(e, events)
      case Done(s, c1) =>
        if (op.And? && s == 0) || (op.Or? && s != 0) then RunGroup(w, c1, g) else Done(s, c1)
  }

  predicate CdFree(p: Plan) {
    match p
    case Final(g) => forall i :: 0 <= i < |g| ==> g[i].dirs == []
    case Branch(g, _, rest) => (forall i :: 0 <= i < |g| ==> g[i].dirs == []) && CdFree(rest)
    case Stuck(_, _) => false
  }

  /** The same operators and groups as acc, op, p, grouped to the left. */
  function Leftward(acc: AndOr, op: Node, p: Plan): (a: AndOr)
    requires ProperPlan(p) && CdFree(p) && ProperList(acc) && (op.And? || op.Or?)
    ensures ProperList(a)
    decreases p
  {
    match p
    case Final(g) => Extend(acc, op, g)
    case Branch(g, next, rest) => Leftward(Extend(acc, op, g), next, rest)
  }

  function LeftList(p: Plan): (a: AndOr)
    requires ProperPlan(p) && CdFree(p)
    ensures ProperList(a)
  {
    match p
    case Final(g) => Single(g)
    case Branch(g, op, rest) => Leftward(Single(g), op, rest)
  }

  function Finish(s: Status): (Outcome, seq<Event>) {
    match s
    case Done(status, c) => (Returned(status), c.events)
    case Aborted(e, events) => (Raised(e), events)
  }

  function PosixEval(w: World, c: Ctx, p: Plan): (Outcome, seq<Event>)
    requires ProperPlan(p) && CdFree(p)
  {
    Finish(EvalLeft(w, c, LeftList(p)))
  }

  /** All operators of the plan are op. */
  predicate Only(op: Node, p: Plan) {
    p.Branch? ==> p.op == op && Only(op, p.rest)
  }

  lemma {:induction false} AbortedStays(w: World, c: Ctx, acc: AndOr, op: Node, p: Plan)
    requires ProperPlan(p) && CdFree(p) && ProperList(acc) && (op.And? || op.Or?)
    requires EvalLeft(w, c, acc).Aborted?
    ensures EvalLeft(w, c, Leftward(acc, op, p)) == EvalLeft(w, c, acc)
    decreases p
  {
    if p.Branch? {
      AbortedStays(w, c, Extend(acc, op, p.group), p.op, p.rest);
    }
  }

  /** With one kind of operator, going on from the left equals short-circuiting to the right. */
  lemma {:induction false} OneKindAgrees(w: World, c: Ctx, acc: AndOr, op: Node, p: Plan)
    requires ProperPlan(p) && CdFree(p) && ProperList(acc) && (op.And? || op.Or?)
    requires EvalLeft(w, c, acc).Done? && Only(op, p)
    ensures var left := EvalLeft(w, c, acc);
      Finish(EvalLeft(w, c, Leftward(acc, op, p)))
      == if Proceeds(op, left.status) then Eval(w, left.c, p) else (Returned(left.status), left.c.events)
    decreases p
  {
    if p.Branch? {
      var next := Extend(acc, op, p.group);
      if EvalLeft(w, c, next).Aborted? {
        AbortedStays(w, c, next, p.op, p.rest);
      } else {
        OneKindAgrees(w, c, next, p.op, p.rest);
      }
    }
  }

  lemma {:induction false} AgreesAt(w: World, p: Plan)
    requires ProperPlan(p) && CdFree(p) && (p.Branch? ==> Only(p.op, p))
    ensures Eval(w, FRESH, p) == PosixEval(w, FRESH, p)
  {
    if p.Branch? {
      if RunGroup(w, FRESH, p.group).Aborted? {
        AbortedStays(w, FRESH, Single(p.group), p.op, p.rest);
      } else {
        OneKindAgrees(w, FRESH, Single(p.group), p.op, p.rest);
      }
    }
  }

  lemma {:induction false} RunGroupGrows(w: World, c: Ctx, g: seq<StageOk>)
    requires Friendly(w) && g != [] && forall i :: 0 <= i < |g| ==> g[i].dirs == []
    ensures RunGroup(w, c, g).Done? && |RunGroup(w, c, g).c.events| > |c.events|
    ensures RunGroup(w, c, g).status == w.exit(c.np + |g| - 1)
  {
    LaunchGroupOk(w, c, g);
  }

  /** Going on never takes events back. */
  lemma {:induction false} LeftGrows(w: World, c: Ctx, acc: AndOr, op: Node, p: Plan)
    requires ProperPlan(p) && CdFree(p) && ProperList(acc) && (op.And? || op.Or?)
    requires Friendly(w) && EvalLeft(w, c, acc).Done?
    ensures var r := EvalLeft(w, c, Leftward(acc, op, p));
      r.Done? && |r.c.events| >= |EvalLeft(w, c, acc).c.events|
    decreases p
  {
    RunGroupGrows(w, EvalLeft(w, c, acc).c, p.group);
    if p.Branch? {
      LeftGrows(w, c, Extend(acc, op, p.group), p.op, p.rest);
    }
  }

  /** After a short circuit at op, the left-associative list still runs what follows the first
      operator of the other kind. */
  lemma {:induction false} OtherKindRuns(w: World, c: Ctx, acc: AndOr, op: Node, p: Plan)
    requires ProperPlan(p) && CdFree(p) && ProperList(acc) && (op.And? || op.Or?)
    requires Friendly(w) && EvalLeft(w, c, acc).Done?
    requires !Proceeds(op, EvalLeft(w, c, acc).status) && !Only(op, p)
    ensures var r := EvalLeft(w, c, Leftward(acc, op, p));
      r.Done? && |r.c.events| > |EvalLeft(w, c, acc).c.events|
    decreases p
  {
    var next := Extend(acc, op, p.group);
    if p.op == op {
      OtherKindRuns(w, c, next, p.op, p.rest);
    } else {
      RunGroupGrows(w, EvalLeft(w, c, next).c, p.rest.group);
      if p.rest.Branch? {
        LeftGrows(w, c, Extend(next, p.op, p.rest.group), p.rest.op, p.rest.rest);
      }
    }
  }

  lemma {:induction false} DiffersSomewhere(p: Plan)
    requires ProperPlan(p) && CdFree(p) && p.Branch? && !Only(p.op, p)
    ensures exists w: World :: Eval(w, FRESH, p) != PosixEval(w, FRESH, p)
  {
    var w := World(if p.op.And? then (_ => 1) else (_ => 0), _ => false, _ => false);
    RunGroupGrows(w, FRESH, p.group);
    OtherKindRuns(w, FRESH, Single(p.group), p.op, p.rest);
    assert |PosixEval(w, FRESH, p).1| > |Eval(w, FRESH, p).1|;
  }

  /** In every world: the same events in the same order, and the same result. */
  ghost predicate AlwaysPosix(p: Plan)
    requires ProperPlan(p) && CdFree(p)
  {
    forall w: World :: Eval(w, FRESH, p) == PosixEval(w, FRESH, p)
  }

  /** On lists without cd, run starts the same commands in the same order with the same result
      as the left-associative meaning, in every world, exactly when the list does not mix the two
      operators. */
  lemma {:induction false} PosixIffOneKind(p: Plan)
    requires ProperPlan(p) && CdFree(p)
    ensures AlwaysPosix(p) <==> (p.Branch? ==> Only(p.op, p))
  {
    if p.Branch? && !Only(p.op, p) {
      DiffersSomewhere(p);
    } else {
      forall w: World
        ensures Eval(w, FRESH, p) == PosixEval(w, FRESH, p)
      {
        AgreesAt(w, p);
      }
    }
  }

  /** The list has no cd, from position i on. */
  predicate NoCd(nodes: seq<Node>, i: nat) {
    forall j :: i <= j < |nodes| ==> !nodes[j].Chdir?
  }

  /** No And or Or other than op, from position i on. */
  predicate NoOtherThan(op: Node, nodes: seq<Node>, i: nat) {
    forall j :: i <= j < |nodes| && (nodes[j].And? || nodes[j].Or?) ==> nodes[j] == op
  }

  lemma {:induction false} PlanOfCdFreeList(nodes: seq<Node>, i: nat)
    requires WellFormed(nodes) && i < |nodes| && i % 2 == 0 && NoCd(nodes, i)
    ensures CdFree(PlanFrom(nodes, i))
    ensures forall op :: Only(op, PlanFrom(nodes, i)) <==> NoOtherThan(op, nodes, i)
    decreases |nodes| - i
  {
    assert GoodAt(nodes, i);
    var p := PlanFrom(nodes, i);
    if i + 1 < |nodes| {
      assert GoodAt(nodes, i + 1);
      PlanOfCdFreeList(nodes, i + 2);
      var q := PlanFrom(nodes, i + 2);
      assert nodes[i + 1].Pipe? ==> p.group[1..] == q.group;
      forall op
        ensures Only(op, p) <==> NoOtherThan(op, nodes, i)
      {
        assert nodes[i + 1].Pipe? ==> (Only(op, p) <==> Only(op, q));
        assert !nodes[i + 1].Pipe? ==> (Only(op, p) <==> nodes[i + 1] == op && Only(op, q));
        if NoOtherThan(op, nodes, i) {
          assert !nodes[i + 1].Pipe? ==> nodes[i + 1] == op;
          assert NoOtherThan(op, nodes, i + 2);
        }
      }
    }
  }

  /** The same for a parsed list: run has the POSIX meaning in every world exactly when the list
      does not hold both an && and an ||. */
  lemma {:induction false} RunIsPosixIffUnmixed(nodes: seq<Node>)
    requires WellFormed(nodes) && NoCd(nodes, 0)
    ensures CdFree(PlanFrom(nodes, 0))
    ensures AlwaysPosix(PlanFrom(nodes, 0)) <==> (And !in nodes || Or !in nodes)
  {
    var p := PlanFrom(nodes, 0);
    PlanOfCdFreeList(nodes, 0);
    PosixIffOneKind(p);
    assert And !in nodes <==> NoOtherThan(Or, nodes, 0);
    assert Or !in nodes <==> NoOtherThan(And, nodes, 0);
    assert Only(And, p) <==> NoOtherThan(And, nodes, 0);
    assert Only(Or, p) <==> NoOtherThan(Or, nodes, 0);
    assert (p.Branch? ==> Only(p.op, p)) <==> Only(And, p) || Only(Or, p);
  }
}
