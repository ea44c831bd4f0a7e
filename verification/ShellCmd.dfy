/**
 The command-line runner of ns-3/waf-tools/shellcmd.py: a token parser that builds a flat
 list of nodes, and a loop that starts the processes of that list, pipe group by pipe group,
 with short-circuiting.

 The operating system is a parameter (World).  What the runner does to it is recorded as a
 sequence of events.
 */
module ShellCmd {
  import opened Common

  // ---------- Nodes (Pipe, And, Or, Command, Chdir) ----------

  /** Where a stream of a command goes: None, Command.PIPE, Command.STDOUT or a file name. */
  datatype Stream = Inherit | ToPipe | ToStdout | ToFile(name: string)

  datatype Node =
    | Command(name: string, argv: seq<string>, stdin: Option<string>, stdout: Stream, stderr: Stream,
              env: map<string, string>)
    | Chdir(dir: Option<string>)
    | Pipe
    | And
    | Or
  {
    predicate IsOp() { Pipe? || And? || Or? }
  }

  function NewCommand(name: string): Node {
    Command(name, [name], None, Inherit, Inherit, map[])
  }

  // ---------- Recognising NAME=value tokens ----------

  predicate IsNameChar(c: char) {
    'a' <= c <= 'z' || 'A' <= c <= 'Z' || '0' <= c <= '9' || c == '_'
  }

  predicate IsSpace(c: char) {
    c == ' ' || c == '\t' || c == '\n' || c == '\r' || c == 11 as char || c == 12 as char
  }

  predicate HasSpace(s: string) {
    exists i :: 0 <= i < |s| && IsSpace(s[i])
  }

  /** The length of the longest prefix of s made of name characters. */
  function NameLength(s: string): (n: nat)
    ensures n <= |s|
    ensures forall i :: 0 <= i < n ==> IsNameChar(s[i])
    ensures n < |s| ==> !IsNameChar(s[n])
  {
    if s == [] || !IsNameChar(s[0]) then 0 else 1 + NameLength(s[1..])
  }

  /** The match of ^([a-zA-Z0-9_]+)=(\S+)$; the anchor $ also matches before a final newline. */
  function MatchEnvVar(token: string): Option<(string, string)> {
    var n := NameLength(token);
    if n == 0 || n == |token| || token[n] != '=' then None
    else
      var rest := token[n + 1..];
      var value := if rest != [] && rest[|rest| - 1] == '\n' then rest[..|rest| - 1] else rest;
      if value == [] || HasSpace(value) then None
      else Some((token[..n], value))
  }

  predicate NameChars(s: string) {
    s != "" && forall i :: 0 <= i < |s| ==>
      'a' <= s[i] <= 'z' || 'A' <= s[i] <= 'Z' || '0' <= s[i] <= '9' || s[i] == '_'
  }

  predicate NoSpaces(s: string) {
    s != "" && forall i :: 0 <= i < |s| ==>
      s[i] != ' ' && s[i] != '\t' && s[i] != '\n' && s[i] != '\r' && s[i] != 11 as char && s[i] != 12 as char
  }

  lemma {:induction false} NameLengthIs(k: string, rest: string)
    requires NameChars(k) && (rest == "" || !IsNameChar(rest[0]))
    ensures NameLength(k + rest) == |k|
    decreases |k|
  {
    assert (k + rest)[1..] == k[1..] + rest;
    if |k| == 1 {
      assert k[1..] + rest == rest;
    } else {
      NameLengthIs(k[1..], rest);
    }
  }

  lemma {:induction false} NoSpacesIs(v: string)
    ensures NoSpaces(v) <==> v != "" && !HasSpace(v)
  {}

  lemma {:induction false} EnvVarMatches(k: string, v: string, end: string)
    requires NameChars(k) && NoSpaces(v) && (end == "" || end == "\n")
    ensures MatchEnvVar(k + ("=" + (v + end))) == Some((k, v))
  {
    var rest := v + end;
    var token := k + ("=" + rest);
    NameLengthIs(k, "=" + rest);
    NoSpacesIs(v);
    assert v[|v| - 1] != '\n';
    assert token[|k|] == '=' && token[..|k|] == k && token[|k| + 1..] == rest;
    hide NameLength, NoSpaces, NameChars, HasSpace;
    if end == "" {
      assert rest == v;
    } else {
      assert rest[..|rest| - 1] == v;
    }
  }

  lemma {:induction false} MatchedEnvVar(token: string)
    requires MatchEnvVar(token).Some?
    ensures var (k, v) := MatchEnvVar(token).value;
      NameChars(k) && NoSpaces(v) && (token == k + ("=" + v) || token == k + ("=" + (v + "\n")))
  {
    var n := NameLength(token);
    var k, v := token[..n], MatchEnvVar(token).value.1;
    NoSpacesIs(v);
    assert NameChars(k);
    var rest := token[n + 1..];
    assert MatchEnvVar(token).value == (k, v) && NoSpaces(v);
    assert rest == v || rest == v + "\n";
    hide MatchEnvVar, NameLength, NoSpaces, NameChars, HasSpace;
    assert token == k + ("=" + rest);
  }

  /** The token sets k to v exactly when it is k, an equals sign and v, and perhaps a newline. */
  lemma {:induction false} EnvVarIff(token: string, k: string, v: string)
    ensures MatchEnvVar(token) == Some((k, v))
       <==> NameChars(k) && NoSpaces(v) && (token == k + ("=" + v) || token == k + ("=" + (v + "\n")))
  {
    hide MatchEnvVar, NameChars, NoSpaces;
    if MatchEnvVar(token) == Some((k, v)) { MatchedEnvVar(token); }
    if NameChars(k) && NoSpaces(v) {
      EnvVarMatches(k, v, "");
      EnvVarMatches(k, v, "\n");
      assert v + "" == v;
    }
  }

  // ---------- The parser as a function of one token ----------

  datatype Mode = Begin | InCommand | InChdir | WantStderr | WantStdout | WantStdin

  datatype PState = PState(mode: Mode, current: Option<Node>, env: map<string, string>, nodes: seq<Node>)

  const START := PState(Begin, None, map[], [])

  /** The state invariant of the parser: which current node each mode works on. */
  predicate Consistent(s: PState) {
    match s.mode
    case Begin => s.current.None?
    case InChdir => s.current.Some? && s.current.value.Chdir? && s.env == map[]
    case _ => s.current.Some? && s.current.value.Command? && s.env == map[]
  }

  function Commit(s: PState, op: Node): PState
    requires s.current.Some?
  {
    PState(Begin, None, s.env, s.nodes + [s.current.value] + [op])
  }

  /** One token; None is a failed assertion. */
  function Step(s: PState, token: string): Option<PState>
    requires Consistent(s)
  {
    match s.mode
    case Begin =>
      var m := MatchEnvVar(token);
      if m.Some? then Some(s.(env := s.env[m.value.0 := m.value.1]))
      else if token == "cd" then
        if s.env != map[] then None else Some(s.(current := Some(Chdir(None)), mode := InChdir))
      else
        Some(s.(current := Some(NewCommand(token).(env := s.env)), env := map[], mode := InCommand))
    case InCommand =>
      var c := s.current.value;
      if token == ">" then Some(s.(mode := WantStdout))
      else if token == "2>" then Some(s.(mode := WantStderr))
      else if token == "2>&1" then
        if c.stderr != Inherit then None else Some(s.(current := Some(c.(stderr := ToStdout))))
      else if token == "<" then Some(s.(mode := WantStdin))
      else if token == "|" then
        if c.stdout != Inherit then None
        else Some(Commit(s.(current := Some(c.(stdout := ToPipe))), Pipe))
      else if token == "&&" then Some(Commit(s, And))
      else if token == "||" then Some(Commit(s, Or))
      else Some(s.(current := Some(c.(argv := c.argv + [token]))))
    case InChdir =>
      if token == "&&" then Some(Commit(s, And))
      else if s.current.value.dir.Some? then None
      else Some(s.(current := Some(Chdir(Some(token)))))
    case WantStdout =>
      var c := s.current.value;
      if c.stdout != Inherit then None
      else Some(s.(current := Some(c.(stdout := ToFile(token))), mode := InCommand))
    case WantStderr =>
      var c := s.current.value;
      if c.stderr != Inherit then None
      else Some(s.(current := Some(c.(stderr := ToFile(token))), mode := InCommand))
    case WantStdin =>
      var c := s.current.value;
      if c.stdin != None then None
      else Some(s.(current := Some(c.(stdin := Some(token))), mode := InCommand))
  }

  function Steps(s: PState, tokens: seq<string>): (r: Option<PState>)
    requires Consistent(s)
    ensures r.Some? ==> Consistent(r.value)
    decreases |tokens|
  {
    if tokens == [] then Some(s)
    else match Step(s, tokens[0])
      case None => None
      case Some(t) => Steps(t, tokens[1..])
  }

  /** The node list of a token list, or None where parse raises AssertionError. */
  function ParseTokens(tokens: seq<string>): Option<seq<Node>> {
    match Steps(START, tokens)
    case None => None
    case Some(s) => if s.current.None? then None else Some(s.nodes + [s.current.value])
  }

  // ---------- Shape of a parsed list ----------

  /** What a committed command looks like, given whether a Pipe follows it. */
  predicate GoodCommand(c: Node, piped: bool)
    requires c.Command?
  {
    && |c.argv| > 0 && c.argv[0] == c.name
    && (c.stdout == ToPipe <==> piped)
    && c.stdout != ToStdout
    && c.stderr != ToPipe
  }

  predicate GoodAt(nodes: seq<Node>, i: nat)
    requires i < |nodes|
  {
    if i % 2 == 1 then nodes[i].IsOp()
    else if nodes[i].Chdir? then i + 1 == |nodes| || nodes[i + 1].And?
    else nodes[i].Command? && GoodCommand(nodes[i], i + 1 < |nodes| && nodes[i + 1].Pipe?)
  }

  predicate WellFormed(nodes: seq<Node>) {
    |nodes| % 2 == 1 && forall i :: 0 <= i < |nodes| ==> GoodAt(nodes, i)
  }

  /** The same shape for the part committed so far, which ends in an operator. */
  predicate GoodPrefix(s: PState) {
    && |s.nodes| % 2 == 0
    && (forall i :: 0 <= i < |s.nodes| ==> GoodAt(s.nodes, i))
    && (s.nodes == [] || s.nodes[|s.nodes| - 1].IsOp())
    && (s.current.Some? && s.current.value.Command? ==> GoodCommand(s.current.value, false))
  }

  lemma {:induction false} CommitKeepsShape(s: PState, op: Node)
    requires Consistent(s) && s.current.Some? && op.IsOp()
    requires |s.nodes| % 2 == 0 && forall i :: 0 <= i < |s.nodes| ==> GoodAt(s.nodes, i)
    requires s.nodes == [] || s.nodes[|s.nodes| - 1].IsOp()
    requires s.current.value.Chdir? ==> op.And?
    requires s.current.value.Command? ==> GoodCommand(s.current.value, op.Pipe?)
    requires s.current.value.Chdir? || s.current.value.Command?
    ensures GoodPrefix(Commit(s, op))
  {
    var t := Commit(s, op);
    forall i | 0 <= i < |t.nodes|
      ensures GoodAt(t.nodes, i)
    {
      if i < |s.nodes| {
        assert GoodAt(s.nodes, i);
        if i + 1 == |s.nodes| {
          assert i % 2 == 1;
        }
      }
    }
  }

  lemma {:induction false} StepKeepsShape(s: PState, token: string)
    requires Consistent(s) && GoodPrefix(s) && Step(s, token).Some?
    ensures GoodPrefix(Step(s, token).value)
  {
    var t := Step(s, token).value;
    if s.mode == InCommand && token == "|" {
      var c := s.current.value;
      CommitKeepsShape(s.(current := Some(c.(stdout := ToPipe))), Pipe);
    } else if s.mode == InCommand && token == "&&" {
      CommitKeepsShape(s, And);
    } else if s.mode == InCommand && token == "||" {
      CommitKeepsShape(s, Or);
    } else if s.mode == InChdir && token == "&&" {
      CommitKeepsShape(s, And);
    } else {
      assert t.nodes == s.nodes;
    }
  }

  lemma {:induction false} StepsKeepShape(s: PState, tokens: seq<string>)
    requires Consistent(s) && GoodPrefix(s) && Steps(s, tokens).Some?
    ensures GoodPrefix(Steps(s, tokens).value)
    decreases |tokens|
  {
    if tokens != [] {
      StepKeepsShape(s, tokens[0]);
      hide GoodPrefix, Step, Consistent;
      StepsKeepShape(Step(s, tokens[0]).value, tokens[1..]);
    }
  }

  /** Whenever parse succeeds, its list has the shape run relies on. */
  lemma {:induction false} ParsedIsWellFormed(tokens: seq<string>)
    requires ParseTokens(tokens).Some?
    ensures WellFormed(ParseTokens(tokens).value)
  {
    StepsKeepShape(START, tokens);
    hide Steps, GoodCommand;
    var s := Steps(START, tokens).value;
    var nodes := ParseTokens(tokens).value;
    forall i | 0 <= i < |nodes|
      ensures GoodAt(nodes, i)
    {
      if i < |s.nodes| {
        assert GoodAt(s.nodes, i);
      }
    }
  }
}
