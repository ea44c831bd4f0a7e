# Verified models of ns-3-allinone's own algorithms

The simulator's tree carries several self-contained algorithms besides the simulation itself:
build helpers, a test driver, a topology generator, a documentation extractor and a generator of
Python bindings. This project models them in Dafny and proves what they are for. Code that works
step by step is a method over classes, arrays and loops, tied by its postcondition to a function
or a relation; the properties are lemmas about those.

| files | subject |
|---|---|
| `ShellCmd`, `ShellRun`, `ShellAccount`, `ShellPipeline`, `ShellPosix`, `ShellGrammar`, `ShellStarts`, `ShellLeaks`, `ShellFailures` | the shell pipelines of `ns-3/waf-tools/shellcmd.py`: token parser, loop interpreter, a right-nested evaluator it equals, process, pipe and file accounting, the grammar accepted, what each run starts and where it stops, where it departs from POSIX, and what a run that raises leaves behind |
| `BriteGraph`, `BriteTopology` | the BRITE graph: depth-first search, connectivity, and the four-pass classifier |
| `WorkerProtocol`, `WorkerRuns` | the dispatcher, worker threads and collector of `ns-3/test.py`, over every interleaving and every moment of an interrupt |
| `PathGather`, `PathWalks` | the configuration paths of `print-introspected-doxygen.cc`: a recursion over a cyclic type graph and the walks it enumerates |
| `ClassOrder`, `ClassRepeats`, `SharedReturn`, `OverloadDispatch`, `VectorCounter` | PyBindGen: the order of base classes and how often each comes, reference counts under the generated return code, the generated overload dispatcher, the odometer of argument combinations |
| `Decimals`, `PatchFormat`, `PatchSet` | unified diffs of `check-style.py`: the classes that write them, the loop that parses them, and exactly which patches survive both |
| `SeedTokens`, `SeedFile`, `SeedClasses` | BRITE's tokenizer and its seed file, read and written |
| `BriteUtil`, `Timelines` | bucket sort and binary search of BRITE; range and event lookups of `grid.py` |
| `Common` | the optional value used by several modules |

Some statements one might expect of the code are false. The project says exactly when each of
them holds, and exhibits inputs where it does not:

* `run` gives a list the meaning of section 2.9.3 of the POSIX.1-2017 Shell Command Language in
  every environment if and only if the list does not mix `&&` and `||`
  (`RunIsPosixIffUnmixed`): a false `&&` ends the run even if a `||` follows.
* `run` is sure to return a status if and only if every `cd` has a directory and none is last
  (`ReturnsIffCdsComplete`). A run that raises leaves exactly the processes unwaited and the files
  open that the group in progress has started and opened (`RaiseLeavesLastGroup`), as in
  `a | cd x` (`PipeIntoCd`). Where nothing fails, no run leaves a process if and only if the first
  `cd` without a directory or in last place, if there is one, does not stand after a Pipe with no
  command between; and no run leaves a file if and only if no command in front of that `cd` and in
  its group opens one (`FriendlyRunsLeave`). Where opening a file or starting a process may fail,
  no run leaves a process if and only if no Pipe stands in front of that `cd`, and no run leaves a
  file if and only if no command in front of it opens one (`RunsLeave`).
* A second `Classify` on the same graph changes nothing if and only if the first found no node
  with a single stub end (`SecondCallIsIdle`, `SecondCallDiffers`).
* Patches survive writing and parsing if and only if no removed line starts with `-- `, no added
  line with `++ `, nothing contains a newline, positions are not negative and every line has a
  side (`RoundTripsIffClean`, `HeaderLookalike`).
* The tokenizer hangs on a file if and only if a comment at the start of a token has 10000
  characters or more (`HangsIffOverlong`, `TenThousandHang`); otherwise its tokens are the words.
* `vector_counter` raises IndexError if and only if it gets no list, or the last list is empty and
  no earlier one is; otherwise it yields every tuple, and none if an earlier list is empty
  (`VectorCounter`).
* `get_mro` yields each class once if and only if no class stands at two places in base lists of
  classes before it in breadth-first order (`RepeatsIff`); a diamond is enough to repeat one
  (`DiamondRepeats`). It is sure to yield each once where no class is listed twice at all
  (`ListedOnceNoRepeats`), and to repeat a class that is listed twice by nearer ones
  (`TwoNearerRepeat`).
* The order of `get_mro` is documented as "from leaf to root". Every class comes before its bases
  if and only if no base is nearer than a class that lists it, and a base as near as that class
  comes later in breadth-first order (`LeafToRootIff`, `BaseBeforeSubclass`).
* `get_ranges` misses no overlapping range if and only if an end of the interval lies in a range
  or no range overlaps the interval (`CompleteIff`, `BothEndsInGaps`), and it returns too many
  ranges exactly in the cases of `ExactIff` (`StartInGap`).
* `get_events` returns the events of the interval, and the next one if none lies at the interval's
  end, if and only if the search lands on the first event at the start and on the last one at the
  end (`EventsOfInterval`, `EqualTimesMissed`). That is so where at most one event lies at each of
  the two (`RightIfEndsOnce`).

## Model

| member | source | states |
|---|---|---|
| `ShellCmd.StepKeepsShape` | ns-3/waf-tools/shellcmd.py:135-198 | every token keeps the committed list alternating commands or `cd` with operators, a command's stdout is a pipe exactly before a Pipe, a `cd` is followed by And |
| `ShellCmd.ParsedIsWellFormed` | ns-3/waf-tools/shellcmd.py:120-200 | whenever parse succeeds the list has odd length and that shape, which run relies on |
| `ShellCmd.EnvVarIff` | ns-3/waf-tools/shellcmd.py:23-23 | a token sets a variable exactly when it is a name, an equals sign and a value without blanks, and then that name to that value |
| `ShellGrammar.FirstTokens` | ns-3/waf-tools/shellcmd.py:137-152 | what the first tokens of a command do: settings, the name, or `cd` |
| `ShellGrammar.RedirectionTokens` | ns-3/waf-tools/shellcmd.py:154-162 | which stream each redirection fills with the next token, and that it fails the second time |
| `ShellGrammar.OperatorTokens` | ns-3/waf-tools/shellcmd.py:163-182 | what each operator commits, with the standard output a pipe in front of a Pipe only |
| `ShellGrammar.WordTokens` | ns-3/waf-tools/shellcmd.py:177-186 | any other token is an argument, or the directory of a `cd` |
| `ShellGrammar.ParseScript` | ns-3/waf-tools/shellcmd.py:120-200 | on the tokens of a valid script the parser returns the script's meaning, and fails if it has none |
| `ShellGrammar.ScriptOfBegin` | ns-3/waf-tools/shellcmd.py:135-152 | every accepted token list is the token list of a valid script |
| `ShellGrammar.ParseIffScript` | ns-3/waf-tools/shellcmd.py:120-200 | the parser accepts exactly the valid scripts that have a meaning, with that meaning |
| `ShellPipeline.Pipeline.CommitCommand` | ns-3/waf-tools/shellcmd.py:100-103 | moves the current command to the list, and fails when there is none |
| `ShellPipeline.Pipeline.Parse` | ns-3/waf-tools/shellcmd.py:120-200 | the loop over tokens computes the same list as the step function, from any earlier state, or fails where an assertion fails |
| `ShellPipeline.Pipeline.ExecPipedCommands` | ns-3/waf-tools/shellcmd.py:202-211 | waits for every process in order; the status is that of the last process |
| `ShellPipeline.Pipeline.CloseFiles` | ns-3/waf-tools/shellcmd.py:300-303 | closes each file of the group but the null device |
| `ShellPipeline.Pipeline.OpenOutFile` | ns-3/waf-tools/shellcmd.py:45-49 | the null device is never opened; any other file is opened once or the attempt fails |
| `ShellPipeline.Pipeline.StartCommand` | ns-3/waf-tools/shellcmd.py:241-290 | connects the three streams and starts the process exactly as the evaluator's launch step, with the same failure |
| `ShellPipeline.Pipeline.FinishGroup` | ns-3/waf-tools/shellcmd.py:329-336 | all processes of the group are waited for before its files are closed |
| `ShellPipeline.EvalChdirNode` | ns-3/waf-tools/shellcmd.py:224-230 | a `cd` node changes the directory of what follows And; a last `cd` raises |
| `ShellPipeline.EvalCommandNode` | ns-3/waf-tools/shellcmd.py:232-345 | what the evaluator does with a command node and the operator after it |
| `ShellPipeline.Pipeline.Run` | ns-3/waf-tools/shellcmd.py:213-345 | the loop returns the same outcome and causes the same sequence of events as the right-nested evaluator over pipe groups |
| `ShellStarts.LaunchConnects` | ns-3/waf-tools/shellcmd.py:241-290 | a launch opens the files the command names, in front of it and no others, and starts it with its arguments, environment and directory, its three streams connected to just those files, the predecessor's pipe, its own output, the null device or the caller's |
| `ShellStarts.RunStarts` | ns-3/waf-tools/shellcmd.py:213-345 | every process of a run is that of the next command of the list, so connected, and everything of the groups before has ended; a run that returns stops at the last command or at the first operator that its status does not pass, with that status; one that raises has come to a `cd` that cannot be done or a command that cannot be started |
| `ShellStarts.RelativeCds` | ns-3/waf-tools/shellcmd.py:224-227 | relative directories of `cd`s add up, each after a slash |
| `ShellStarts.AbsoluteCd` | ns-3/waf-tools/shellcmd.py:224-227 | an absolute directory replaces the current one, and no slash is doubled |
| `ShellAccount.LaunchKeepsAccount` | ns-3/waf-tools/shellcmd.py:241-290 | a command that follows a Pipe finds the pipe of its predecessor in the group, unread so far, and reads it |
| `ShellAccount.PlanIsPiped` | ns-3/waf-tools/shellcmd.py:163-168 | in every group of a parsed list each command but the last writes to a pipe |
| `ShellAccount.EvalBalanced` | ns-3/waf-tools/shellcmd.py:213-345 | every event of a run is legal: no pipe is read that is not there, none twice, none is left unread when its process is waited for, no file is used that is not open; a run that returns leaves no process and no file behind, one that raises those of the group in progress |
| `ShellAccount.ProcessCounts` | ns-3/waf-tools/shellcmd.py:202-211 | in a legal sequence a process is started at most once and waited for as often as it is started, unless it still runs |
| `ShellAccount.FileCounts` | ns-3/waf-tools/shellcmd.py:300-303 | the same for files opened and closed |
| `ShellAccount.RunAccounts` | ns-3/waf-tools/shellcmd.py:213-345 | in a run of any parsed list that returns, each process started is waited for once and each file opened is closed once |
| `ShellLeaks.RaiseLeavesLastGroup` | ns-3/waf-tools/shellcmd.py:213-345 | for every list and environment: a run that raises leaves exactly the processes and files of the group in progress, and nothing of the groups before |
| `ShellLeaks.FriendlyRunsLeave` | ns-3/waf-tools/shellcmd.py:221-290 | where nothing fails, over all exit codes: some run leaves a process exactly when the first `cd` that raises stands after a Pipe, and a file exactly when a command of its group opens one |
| `ShellLeaks.EarlierBadCdDecides` | ns-3/waf-tools/shellcmd.py:221-230 | only the first `cd` that raises counts: a concrete list |
| `ShellFailures.RunsLeave` | ns-3/waf-tools/shellcmd.py:241-290 | where opening and starting may fail: some run leaves a process exactly when a Pipe can be reached, and a file exactly when a command that opens one can |
| `ShellFailures.PipeIntoCd` | ns-3/waf-tools/shellcmd.py:224-226 | the tokens of `a` piped into `cd x`: run raises, and the process is started once and never waited for |
| `ShellPosix.ReturnsIffCdsComplete` | ns-3/waf-tools/shellcmd.py:221-242 | on a system where nothing fails, run returns a status in all worlds exactly when every `cd` has a directory and is not last |
| `ShellPosix.GoodPlanReturns` | ns-3/waf-tools/shellcmd.py:213-345 | the sufficient half: complete `cd`s never raise |
| `ShellPosix.BadPlanRaises` | ns-3/waf-tools/shellcmd.py:224-227 | the necessary half: exit codes that lead to the bad `cd` make the run raise |
| `ShellPosix.PosixIffOneKind` | ns-3/waf-tools/shellcmd.py:311-345 | the right-nested meaning is the left-associative one in every world exactly when only one kind of operator occurs |
| `ShellPosix.DiffersSomewhere` | ns-3/waf-tools/shellcmd.py:311-345 | any mixed list has a world in which the two meanings differ |
| `ShellPosix.RunIsPosixIffUnmixed` | ns-3/waf-tools/shellcmd.py:213-345 | the same stated of a parsed list: it holds exactly when the list does not hold both And and Or |
| `BriteGraph.Graph.AddNode` | ns-3/BRITE/Graph.cc:47-64 | replaces one entry of the node vector and nothing else |
| `BriteGraph.Graph.AddEdge` | ns-3/BRITE/Graph.cc:66-72 | appends the edge and keeps the edge count right |
| `BriteGraph.Graph.AddAdjListNode` | ns-3/BRITE/Graph.cc:74-78 | puts the neighbour at the front of one adjacency list |
| `BriteGraph.Graph.AddIncListNode` | ns-3/BRITE/Graph.cc:80-89 | enters the edge in the lists of both its ends, twice for a loop, in no other list |
| `BriteGraph.Graph.AdjListFind` | ns-3/BRITE/Graph.cc:117-128 | decides whether one node is in the other's adjacency list |
| `BriteGraph.Graph.DFS` | ns-3/BRITE/Graph.cc:130-147 | from any colouring, exactly the nodes reachable by white paths turn black, other colours stay, and the predecessors form a tree on the reached nodes rooted at the start |
| `BriteGraph.ProgressCall` | ns-3/BRITE/Graph.cc:137-143 | one recursive call on a white neighbour keeps the search's progress: what is black is closed under white edges, call by call |
| `BriteGraph.TreeJoin` | ns-3/BRITE/Graph.cc:139-142 | the tree of a neighbour hung under the current node is again a tree |
| `BriteGraph.ChainIsSimple` | ns-3/BRITE/Graph.cc:130-147 | following predecessors to the root repeats no node |
| `BriteGraph.ConnectedFromZero` | ns-3/BRITE/Topology.cc:67-87 | with symmetric lists, reaching all nodes from node 0 means every pair is connected |
| `BriteTopology.Topology.SearchFromZero` | ns-3/BRITE/Topology.cc:69-76 | after the search a node is coloured exactly when it can be reached from node 0 |
| `BriteTopology.Topology.IsConnected` | ns-3/BRITE/Topology.cc:67-87 | true exactly when every node can be reached from node 0 |
| `BriteTopology.Topology.PopulateIncidence` | ns-3/BRITE/Topology.cc:317-322 | every edge is entered once more at both ends |
| `BriteTopology.Topology.FindLeaves` | ns-3/BRITE/Topology.cc:324-346 | a node becomes LEAF exactly when its out-degree is at most `m`; nothing else changes |
| `BriteTopology.Topology.FindStubLinks` | ns-3/BRITE/Topology.cc:348-371 | an edge becomes STUB exactly when an end is LEAF; nothing else changes |
| `BriteTopology.Topology.FindStubRouters` | ns-3/BRITE/Topology.cc:373-426 | a node that is not LEAF becomes BACKBONE, STUB or BORDER by the stub ends counted in its list |
| `BriteTopology.Topology.FindBorderLinks` | ns-3/BRITE/Topology.cc:428-471 | an edge that is not STUB becomes BORDER between a STUB and a BORDER node, otherwise BACKBONE |
| `BriteTopology.CountRounds` | ns-3/BRITE/Topology.cc:384-395 | after k calls have filled the lists, the stubs counted at a node are k times its stub ends |
| `BriteTopology.PassesClassify` | ns-3/BRITE/Topology.cc:315-472 | the four passes together give the final types by rule, for nodes and edges |
| `BriteTopology.FirstClassification` | ns-3/BRITE/Topology.cc:315-472 | after the first call: a node is LEAF by its out-degree, otherwise BACKBONE, STUB or BORDER by 0, 1 or more stub ends; an edge is STUB by a LEAF end, otherwise BORDER between a STUB and a BORDER node, otherwise BACKBONE |
| `BriteTopology.Topology.Classify` | ns-3/BRITE/Topology.cc:315-472 | the types after a call follow the four rules, whatever number of earlier calls filled the incidence lists, and after the first call they are those types |
| `BriteTopology.ClassificationIsUnique` | ns-3/BRITE/Topology.cc:315-472 | the rules determine every type |
| `BriteTopology.StubCountsAddUp` | ns-3/BRITE/Topology.cc:384-395 | conservation: stub counts summed over the non-leaf nodes equal the number of edges with exactly one LEAF end |
| `BriteTopology.SecondCallIsIdle` | ns-3/BRITE/Topology.cc:315-472 | a second call changes nothing exactly when no node was STUB, and what it changes otherwise |
| `BriteTopology.SecondCallDiffers` | ns-3/BRITE/Topology.cc:315-472 | two nodes and one edge that a second call classifies differently |
| `WorkerProtocol.InitKeeps` | ns-3/test.py:1322-1325 | the invariant of the protocol holds before any thread runs |
| `WorkerProtocol.StepKeeps` | ns-3/test.py:925-993 | every atomic step of any thread, and the interrupt at any moment, keeps the invariant |
| `WorkerProtocol.RunKeeps` | ns-3/test.py:925-993 | so it holds after every interleaving |
| `WorkerRuns.SomeStepEnabled` | ns-3/test.py:925-993 | in every reachable state but the last some thread can take a step |
| `WorkerRuns.CollectorServed` | ns-3/test.py:1607-1608 | while the collector waits, a result is there or a worker can move |
| `WorkerRuns.JoinServed` | ns-3/test.py:1753-1754 | while a join waits, its worker has returned or some worker can move |
| `WorkerRuns.StepLeavesLess` | ns-3/test.py:925-993 | every thread step lowers a measure, an interrupt does not raise it |
| `WorkerRuns.EveryRunEnds` | ns-3/test.py:925-993 | no interleaving has more than 6 steps for each job, 4 for each worker and 5 more |
| `WorkerRuns.OnlyStuckAtTheEnd` | ns-3/test.py:1753-1754 | a run that no thread can extend has finished: no deadlock |
| `WorkerRuns.DeliveredOnce` | ns-3/test.py:1585-1611 | at the end each dispatched job was collected exactly once, both queues are empty, and each worker returned on a break job of its own |
| `WorkerRuns.TallyAddsUp` | ns-3/test.py:1600-1636 | the counters and the interrupted jobs add up to the results taken, and only fine results give as many successes |
| `WorkerRuns.TallyReports` | ns-3/test.py:1607-1634 | every counter is the number of results of its status: skipped, or return code 0, 1, 2 or another |
| `WorkerRuns.CollectResults` | ns-3/test.py:1600-1636 | the collecting loop counts every result under its status and no interrupted one; the status is 0 exactly when all results are fine |
| `WorkerRuns.FinalReport` | ns-3/test.py:1832-1835 | in every finished run every job is counted once, under the status of its result, and 0 is returned exactly when none was interrupted and every job not skipped returned 0 |
| `WorkerRuns.InterleavingDoesNotMatter` | ns-3/test.py:925-993 | without an interrupt all finished interleavings report the counters of a sequential run, which are the numbers of configured jobs of each status |
| `WorkerRuns.NothingStartsAfterInterrupt` | ns-3/test.py:939-942 | after the interrupt only jobs already running finish, at most one for each worker |
| `WorkerRuns.LaterJobsInterrupted` | ns-3/test.py:939-942 | after the interrupt every job not yet looked at comes back interrupted: the other results are those that were there or on their way |
| `PathGather.StaticInformation.GetCurrentPath` | ns-3/utils/print-introspected-doxygen.cc:1081-1091 | the path elements, each after a slash |
| `PathGather.StaticInformation.RecordOutput` | ns-3/utils/print-introspected-doxygen.cc:1095-1099 | one entry with the current path is appended |
| `PathGather.StaticInformation.HasAlreadyBeenProcessed` | ns-3/utils/print-introspected-doxygen.cc:1103-1114 | decides whether the type is on the stack |
| `PathGather.StaticInformation.Get` | ns-3/utils/print-introspected-doxygen.cc:1118-1131 | the paths recorded for a type, in order |
| `PathGather.EdgesOf` | ns-3/utils/print-introspected-doxygen.cc:1183-1257 | the edges followed from a type: its attributes but pointers to Object and plain values, with their labels; then exactly the types below it, in registry order; then the other member of each pair it is in |
| `PathGather.RenderConcat` | ns-3/utils/print-introspected-doxygen.cc:1081-1091 | the text of a path: each element after one slash, in order |
| `PathGather.StaticInformation.GatherAttributes` | ns-3/utils/print-introspected-doxygen.cc:1183-1222 | pointer and container attributes are followed in order, a pointer to Object itself is not; both stacks are restored |
| `PathGather.StaticInformation.GatherChildren` | ns-3/utils/print-introspected-doxygen.cc:1223-1235 | registered children are followed in order; both stacks are restored |
| `PathGather.StaticInformation.GatherAggregates` | ns-3/utils/print-introspected-doxygen.cc:1236-1257 | aggregated types are followed in order; both stacks are restored |
| `PathGather.ThreeParts` | ns-3/utils/print-introspected-doxygen.cc:1178-1257 | what a call appends is its own entry and the three loops' parts |
| `PathGather.StaticInformation.DoGather` | ns-3/utils/print-introspected-doxygen.cc:1175-1258 | terminates on every type graph, appends exactly what the recursive specification says and leaves both stacks as they were |
| `PathGather.StaticInformation.Gather` | ns-3/utils/print-introspected-doxygen.cc:1166-1171 | the same: removing duplicates works on a copy |
| `PathWalks.WalksAreTheSimpleOnes` | ns-3/utils/print-introspected-doxygen.cc:1175-1258 | a walk is enumerated exactly when it repeats no type and avoids the stack |
| `PathWalks.WalksOrdered` | ns-3/utils/print-introspected-doxygen.cc:1175-1258 | the walks come in depth-first order, so none comes twice |
| `PathWalks.OutputIsEntries` | ns-3/utils/print-introspected-doxygen.cc:1175-1258 | the output is the list of the entries of these walks, from any path and stack |
| `PathWalks.PathsAreSimpleWalks` | ns-3/utils/print-introspected-doxygen.cc:1118-1131 | the paths recorded for a type are exactly the label sequences of simple walks to it |
| `PathWalks.OneEntryPerWalk` | ns-3/utils/print-introspected-doxygen.cc:1175-1258 | one entry for each simple walk, none missing, none twice |
| `ClassOrder.QueueBases` | pybindgen/pybindgen/cppclass.py:969-971 | exactly the unvisited bases are queued, in order |
| `ClassOrder.VisitKeeps` | pybindgen/pybindgen/cppclass.py:965-971 | a visit keeps the invariant of the breadth-first walk |
| `ClassOrder.VisitShrinks` | pybindgen/pybindgen/cppclass.py:965-971 | termination: fewer unvisited classes, or as many and fewer visited ones in the queue |
| `ClassOrder.FrontDistance` | pybindgen/pybindgen/cppclass.py:965-968 | a new class at the front of the queue is at its distance |
| `ClassOrder.GetMro` | pybindgen/pybindgen/cppclass.py:957-971 | terminates on every base graph, cycles included, and yields what the recursion on queue and visited set says: exactly the class and its ancestors, the class first |
| `ClassOrder.WalkVisits` | pybindgen/pybindgen/cppclass.py:957-971 | first visits happen at the distance of the class, and nearer classes never come later |
| `ClassRepeats.WalkLaw` | pybindgen/pybindgen/cppclass.py:965-971 | the output is the class followed by the bases that its own visits queue, in order |
| `ClassRepeats.VisitsCounted` | pybindgen/pybindgen/cppclass.py:965-971 | a class is yielded as often as base lists hold it up to its first visit, the first class once more |
| `ClassRepeats.VisitsInOrder` | pybindgen/pybindgen/cppclass.py:957-971 | first visits come in the order of an ordinary breadth-first search |
| `ClassRepeats.RepeatsIff` | pybindgen/pybindgen/cppclass.py:957-971 | no class comes twice exactly when none is listed at two places by classes before it in breadth-first order |
| `ClassRepeats.ListedOnceNoRepeats` | pybindgen/pybindgen/cppclass.py:969-971 | no class comes twice if none is listed at two places |
| `ClassRepeats.TwoNearerRepeat` | pybindgen/pybindgen/cppclass.py:969-971 | a class listed at two places by strictly nearer classes makes the output repeat |
| `ClassRepeats.DiamondRepeats` | pybindgen/pybindgen/cppclass.py:957-971 | a concrete diamond whose top comes twice |
| `ClassRepeats.NearerFirst` | pybindgen/pybindgen/cppclass.py:957-971 | of two classes the nearer one is met first |
| `ClassRepeats.LeafToRootIff` | pybindgen/pybindgen/cppclass.py:957-962 | every class comes before its bases exactly when no link leads nearer and a link to the same distance leads to a class later in breadth-first order |
| `ClassRepeats.BaseBeforeSubclass` | pybindgen/pybindgen/cppclass.py:957-962 | a concrete class whose base comes before it |
| `ClassOrder.IsSubclass` | pybindgen/pybindgen/cppclass.py:1025-1030 | decides reachability through bases |
| `SharedReturn.WriteCreateNewWrapper` | pybindgen/pybindgen/cppclass.py:2676-2760 | the statements emitted for a new wrapper |
| `SharedReturn.CommonSharedObjectReturn` | pybindgen/pybindgen/cppclass.py:2666-2800 | the statements emitted for a return, by kind of registry and ownership |
| `SharedReturn.ReturnedNew` | pybindgen/pybindgen/cppclass.py:2762-2788 | without a registered wrapper a new one adopts the reference handed over or takes one of its own |
| `SharedReturn.ReturnedKnown` | pybindgen/pybindgen/cppclass.py:2779-2800 | a registered wrapper is used again and a reference handed over is released |
| `SharedReturn.DeallocReleasesOnce` | pybindgen/pybindgen/cppclass.py:175-182 | deallocation releases the reference once even when the delete code runs twice |
| `SharedReturn.StepKeeps` | pybindgen/pybindgen/cppclass.py:2666-2800 | every return, deallocation and reference operation keeps the counts right and never touches a deleted object |
| `SharedReturn.ProgramsKeepCounts` | pybindgen/pybindgen/cppclass.py:2666-2800 | so does every program of such steps |
| `SharedReturn.CountsAddUp` | pybindgen/pybindgen/cppclass.py:2666-2800 | at every moment a living object's count is its references outside plus the wrappers that hold it, with the map at most one |
| `SharedReturn.HandedOverReference` | pybindgen/pybindgen/cppclass.py:2790-2798 | a reference handed over is adopted by a new wrapper or released once, never both |
| `OverloadDispatch.GeneratedLists` | pybindgen/pybindgen/overloading.py:183-195 | the dispatcher tries exactly the wrappers that could be generated, in order |
| `OverloadDispatch.Generate` | pybindgen/pybindgen/overloading.py:138-250 | generation is given up exactly when no wrapper could be generated; otherwise the written code, run, returns the result of the lowest-numbered one that parses, or raises the messages of all in their order, and keeps no exception; nothing is written for a single wrapper that needs no dispatcher |
| `OverloadDispatch.WriteAttempt` | pybindgen/pybindgen/overloading.py:215-232 | the statements of one attempt |
| `OverloadDispatch.WriteRejection` | pybindgen/pybindgen/overloading.py:234-246 | the statements after the last attempt |
| `OverloadDispatch.AttemptsRun` | pybindgen/pybindgen/overloading.py:215-232 | running the first j attempts: all failed so far, or the first success was returned and nothing ran after it |
| `OverloadDispatch.TailRuns` | pybindgen/pybindgen/overloading.py:238-246 | after n failures one TypeError holds all n messages in order and every exception is released once |
| `OverloadDispatch.DispatchIsFirstMatch` | pybindgen/pybindgen/overloading.py:211-248 | for all outcomes the emitted code returns the first delegate without a parse exception, calling none after it, or raises that error |
| `VectorCounter.RankFollowsLex` | pybindgen/pybindgen/overloading.py:30-48 | rank in mixed radix follows dictionary order of index tuples |
| `VectorCounter.RankIsInjective` | pybindgen/pybindgen/overloading.py:30-48 | no two tuples share a rank |
| `VectorCounter.RankIsOnto` | pybindgen/pybindgen/overloading.py:30-48 | every number below the product is a rank |
| `VectorCounter.SuccIsNext` | pybindgen/pybindgen/overloading.py:37-47 | turning the wheels gives the next rank, and ends exactly after the highest |
| `VectorCounter.Turn` | pybindgen/pybindgen/overloading.py:38-47 | the inner loop turns the wheels in place to that successor |
| `VectorCounter.Collect` | pybindgen/pybindgen/overloading.py:37-48 | the outer loop yields every tuple at its rank and stops after exactly the product of the lengths |
| `VectorCounter.VectorCounter` | pybindgen/pybindgen/overloading.py:30-48 | the whole generator; an IndexError exactly where the first line has no last element to take |
| `PatchFormat.TextIsClean` | ns-3/utils/check-style.py:231-263 | a line parsed as removed or added text never looks like a file header |
| `PatchFormat.ParseKeepsClean` | ns-3/utils/check-style.py:221-265 | whatever parse_patchset returns is clean |
| `PatchFormat.SrcSidePicks` | ns-3/utils/check-style.py:153-154 | the source side of a chunk is its removed and common lines, in order |
| `PatchFormat.DstSidePicks` | ns-3/utils/check-style.py:155-156 | the destination side is its added and common lines, in order |
| `PatchFormat.SampleWritten` | ns-3/utils/check-style.py:157-219 | a concrete patch and its text |
| `PatchFormat.ParseStops` | ns-3/utils/check-style.py:235-264 | a failing parse fails at a line: a file or chunk header without a patch, text without a chunk, or a line of no kind, each with its exception |
| `PatchFormat.ChunkHeaderReads` | ns-3/utils/check-style.py:193-195 | a written chunk header parses to the positions and to counts equal to the lengths of the two projections |
| `PatchFormat.CountsDelimitChunk` | ns-3/utils/check-style.py:177-192 | counting lines off, the two counts run out exactly at the chunk's last line |
| `PatchFormat.SetReadsBack` | ns-3/utils/check-style.py:215-265 | after any earlier patches, parsing the written lines of clean patches appends exactly those patches |
| `PatchFormat.RoundTripsIffClean` | ns-3/utils/check-style.py:157-265 | for all lists of patches: writing and parsing gives the list back if and only if it is clean |
| `PatchFormat.ReparseIsStable` | ns-3/utils/check-style.py:221-265 | any successful parse, however wrong its counts, survives being written and parsed again |
| `PatchFormat.HeaderLookalike` | ns-3/utils/check-style.py:159-159 | a concrete removed line that does not survive |
| `PatchSet.PatchChunkLine.Write` | ns-3/utils/check-style.py:157-165 | one line with the sign of its side, or 'invalid patch' |
| `PatchSet.PatchChunk.AddLine` | ns-3/utils/check-style.py:175-176 | the line object is appended to the chunk |
| `PatchSet.PatchChunk.Src` | ns-3/utils/check-style.py:177-182 | the very line objects of the source side, in order |
| `PatchSet.PatchChunk.Dst` | ns-3/utils/check-style.py:183-188 | the very line objects of the destination side, in order |
| `PatchSet.PatchChunk.Write` | ns-3/utils/check-style.py:193-197 | writes what the format says, stopping at a line without a side |
| `PatchSet.Patch.Write` | ns-3/utils/check-style.py:215-219 | writes both headers and all chunks, stopping where a line raises |
| `PatchSet.TakeItem` | ns-3/utils/check-style.py:230-264 | one turn of the parsing loop on mutable, shared objects: same new patch list as the specification, or the same error |
| `PatchSet.ParsePatchset` | ns-3/utils/check-style.py:221-265 | the parsing loop returns separate objects holding exactly the specified patches, or fails with the same exception |
| `SeedTokens.ReadsWords` | ns-3/BRITE/Parser.cc:212-250 | on any file described as delimiters, comments and words, successive calls return exactly the words, up to an overlong comment |
| `SeedTokens.EveryFileIsPieces` | ns-3/BRITE/Parser.cc:212-250 | every file has such a description, so the tokens of every file are known |
| `SeedTokens.SixDelimiters` | ns-3/BRITE/Parser.cc:96-103 | space, tab, colon, newline, slash and the null character part words |
| `SeedTokens.HangsIffOverlong` | ns-3/BRITE/Parser.cc:233-236 | the calls hang on a file exactly when one of its comments has 10000 characters or more |
| `SeedTokens.TenThousandHang` | ns-3/BRITE/Parser.cc:233-236 | a comment of 10000 characters hangs, one of 9999 does not |
| `SeedClasses.InFile.GetLine` | ns-3/BRITE/Parser.cc:233-236 | a comment line is dropped; one that does not fit the buffer fails the stream |
| `SeedClasses.Parse.SkipDelims` | ns-3/BRITE/Parser.cc:225-227 | reads to the first character that is no delimiter, or to the end |
| `SeedClasses.Parse.TakeWord` | ns-3/BRITE/Parser.cc:238-242 | reads the longest run without a delimiter, and the delimiter after it |
| `SeedClasses.Parse.GetNextToken` | ns-3/BRITE/Parser.cc:212-250 | the nested loops over the stream compute one step of the specification: token, end or hang, and the stream left behind |
| `SeedClasses.Parse.ParseSeed` | ns-3/BRITE/Parser.cc:398-415 | fills the array with three numbers after the right name, or fails with the same message |
| `SeedFile.ReadSeedsIffFits` | ns-3/BRITE/Brite.cc:50-63 | the six seeds are read exactly when the words of the file have the names in place, and they are those words' numbers |
| `SeedFile.SeedsOfAnyLayout` | ns-3/BRITE/Brite.cc:50-63 | layout, comments and anything after the last value do not matter |
| `SeedFile.SeedErrors` | ns-3/BRITE/Parser.cc:398-415 | which complaint one call ends with: a wrong name, with the word found, a missing name or a missing value |
| `SeedFile.SeedsRoundTrip` | ns-3/BRITE/Brite.cc:132-163 | the written file gives back all six seeds |
| `SeedFile.SeedFileText` | ns-3/BRITE/Brite.cc:132-163 | the written file line by line, with the six names |
| `SeedFile.AtoiReads` | ns-3/BRITE/Parser.cc:407-413 | a value is read past blanks, with its sign, up to the first character that is no digit |
| `SeedClasses.Model.InitSeeds` | ns-3/BRITE/Brite.cc:50-63 | the six calls fill the six arrays with what the file holds, or end with its error |
| `SeedClasses.Model.OutputSeeds` | ns-3/BRITE/Brite.cc:132-163 | writes one line for each array |
| `BriteUtil.Scatter` | ns-3/BRITE/Util.cc:86-93 | every number is in its own bucket, as often as in the array |
| `BriteUtil.GatherOne` | ns-3/BRITE/Util.cc:98-103 | appending the next sorted bucket keeps the output sorted and complete so far |
| `BriteUtil.BucketSort` | ns-3/BRITE/Util.cc:83-105 | the array ends sorted with the same numbers as often |
| `BriteUtil.SearchFindsFirst` | ns-3/BRITE/Util.cc:108-120 | on a sorted segment the result is the first index not below the value, or the segment's end |
| `Timelines.TimelineDataRange.Search` | ns-3/utils/grid.py:49-61 | the index of the range that holds the key, or -1 exactly when none does |
| `Timelines.TimelineDataRange.GetRangesBounds` | ns-3/utils/grid.py:77-87 | the bounds of the slice, by which end of the interval lies in a range |
| `Timelines.TimelineDataRange.GetRanges` | ns-3/utils/grid.py:66-76 | that slice of the ranges |
| `Timelines.CompleteIff` | ns-3/utils/grid.py:66-76 | on ranges in order, touching or not: no range that overlaps the interval is missed exactly when an end lies in a range or no range overlaps it |
| `Timelines.CompleteWithEndsIff` | ns-3/utils/grid.py:66-76 | on ranges that do not touch, the same for ranges that share only an end with the interval |
| `Timelines.ExactIff` | ns-3/utils/grid.py:66-76 | no other range is returned exactly under the stated condition on the end in a gap |
| `Timelines.BothEndsInGaps` | ns-3/utils/grid.py:66-76 | a concrete range inside the interval that is not returned |
| `Timelines.StartInGap` | ns-3/utils/grid.py:66-76 | a concrete range outside the interval that is returned |
| `Timelines.LandingSplits` | ns-3/utils/grid.py:101-113 | in ordered times the search ends at an event at the key, or at the place where one would go |
| `Timelines.TimelineEvent.Search` | ns-3/utils/grid.py:101-113 | the very place where that binary search lands, also among equal times |
| `Timelines.TimelineEvent.GetEvents` | ns-3/utils/grid.py:116-119 | the slice between the two places where the searches land, one further |
| `Timelines.EventsOfInterval` | ns-3/utils/grid.py:116-119 | in ordered times, equal ones allowed: the result is the events of the interval by a linear look, and one more exactly when none lies at the interval's end, if and only if the searches land on the first event at the start and the last at the end |
| `Timelines.RightIfEndsOnce` | ns-3/utils/grid.py:116-119 | so it is right where at most one event lies at the start and at most one at the end, whatever repeats elsewhere |
| `Timelines.InsideIsNeverMissed` | ns-3/utils/grid.py:116-119 | with equal times, events strictly inside are still all returned |
| `Timelines.EqualTimesMissed` | ns-3/utils/grid.py:101-119 | three events at one time: the search lands on the middle one and one event is returned instead of three |

## Left out

- Process creation, real files, `shlex` splitting and verbose printing in `shellcmd.py`: processes and files are an oracle for exit codes and failures plus a record of events. With verbose printing on, the code reads `retval` before it is set; that path is not part of this model.
- Command, Chdir and operator nodes of `shellcmd.py` are values: the parser never changes a node after committing it.
- `get_abbreviated_command`: its second test for And never prints an Or, so there is nothing to prove.
- `Graph::SetNumNodes`, and node and edge configurations as separate objects: each is a value owned by one node or edge, so sharing a configuration between two nodes is not modelled.
- The BRITE models that build graphs, random numbers, the import of other formats and the file output of a topology.
- Jobs of `test.py` whose execution raises or never returns, and everything that run_tests prints or writes. Threads are labelled atomic steps of a transition system; `collected` records what the collector took.
- The lookups by name in `RecordAggregationInfo`, and `Uniquefy`, which sorts a copy. The chain of parents of a type is finite; its height is a number in the model.
- In `common_shared_object_return`: a helper class, `caller_manages_return` off, type narrowing, policies without reference counts, and garbage-collection clears that are not part of a deallocation. The wrapper registry is a map or nothing.
- The text of generated C code: statements are values with a meaning, in the order in which the source writes them.
- `_normalize_py_method_flags` and the text of the single wrappers in `OverloadedWrapper.generate`.
- `remove_trailing_whitespace_changes`, `Patch.apply` and the uncrustify driver in `check-style.py`. Regular expressions are functions on the whole line.
- `GetNextTokenList` and the configuration-file fields of `Parser.cc`, and the later change of the sixth delimiter to a dot: in the seed reader it is the null character.
- Values beyond the range of int in a seed file, for which atoi is undefined; the model reduces the number modulo 65536.
- Rounding in `BucketSort`: numbers are real. The list class's own sort is modelled by insertion.
- Drawing in `grid.py`, and its sort calls: the lookups are stated for lists in order.
- Generator objects of Python: `vector_counter` and `get_mro` are run to their end.
