/**
 The language that parse accepts, as a grammar of scripts, and the node list each script
 stands for.  The parser succeeds on exactly the token lists of the valid scripts that have a
 meaning, and returns that meaning.
 */
module ShellGrammar {
  import opened Common
  import opened ShellCmd

  datatype Piece = Word(word: string) | OutTo(file: string) | ErrTo(file: string) | ErrToOut | InFrom(file: string)

  datatype Tail = End | Dangling(token: string) | Then(op: Node, rest: Script)

  /** A command with its NAME=value prefixes, or a cd; then the rest of the list. */
  datatype Script =
    | RunItem(envs: seq<string>, name: string, pieces: seq<Piece>, tail: Tail)
    | CdItem(dir: Option<string>, tail: Tail)

  predicate PlainWord(t: string) {
    t != ">" && t != "2>" && t != "2>&1" && t != "<" && t != "|" && t != "&&" && t != "||"
  }

  predicate ValidTail(t: Tail, afterCd: bool) {
    match t
    case End => true
    case Dangling(token) => !afterCd && (token == ">" || token == "2>" || token == "<")
    case Then(op, rest) => op.IsOp() && (afterCd ==> op.And?) && ValidScript(rest)
  }

  predicate ValidScript(sc: Script) {
    match sc
    case RunItem(envs, name, pieces, tail) =>
      && (forall i :: 0 <= i < |envs| ==> MatchEnvVar(envs[i]).Some?)
      && MatchEnvVar(name).None? && name != "cd"
      && (forall i :: 0 <= i < |pieces| && pieces[i].Word? ==> PlainWord(pieces[i].word))
      && ValidTail(tail, false)
    case CdItem(dir, tail) => dir != Some("&&") && ValidTail(tail, true)
  }

  // ---------- Tokens ----------

  function PieceTokens(p: Piece): seq<string> {
    match p
    case Word(w) => [w]
    case OutTo(f) => [">", f]
    case ErrTo(f) => ["2>", f]
    case ErrToOut => ["2>&1"]
    case InFrom(f) => ["<", f]
  }

  function PiecesTokens(ps: seq<Piece>): seq<string> {
    if ps == [] then [] else PieceTokens(ps[0]) + PiecesTokens(ps[1..])
  }

  function OpToken(op: Node): string {
    if op.Pipe? then "|" else if op.And? then "&&" else "||"
  }

  function TailTokens(t: Tail): seq<string> {
    match t
    case End => []
    case Dangling(token) => [token]
    case Then(op, rest) => [OpToken(op)] + Tokens(rest)
  }

  function Tokens(sc: Script): seq<string> {
    match sc
    case RunItem(envs, name, pieces, tail) => envs + ([name] + (PiecesTokens(pieces) + TailTokens(tail)))
    case CdItem(dir, tail) => ["cd"] + ((if dir.Some? then [dir.value] else []) + TailTokens(tail))
  }

  // ---------- Meaning ----------

  /** A redirection fills one stream, and only once. */
  function Apply(c: Node, p: Piece): Option<Node>
    requires c.Command?
  {
    match p
    case Word(w) => Some(c.(argv := c.argv + [w]))
    case OutTo(f) => if c.stdout == Inherit then Some(c.(stdout := ToFile(f))) else None
    case ErrTo(f) => if c.stderr == Inherit then Some(c.(stderr := ToFile(f))) else None
    case ErrToOut => if c.stderr == Inherit then Some(c.(stderr := ToStdout)) else None
    case InFrom(f) => if c.stdin == None then Some(c.(stdin := Some(f))) else None
  }

  function ApplyAll(c: Node, ps: seq<Piece>): (r: Option<Node>)
    requires c.Command?
    ensures r.Some? ==> r.value.Command?
    decreases |ps|
  {
    if ps == [] then Some(c)
    else match Apply(c, ps[0])
      case None => None
      case Some(d) => ApplyAll(d, ps[1..])
  }

  function EnvOf(env: map<string, string>, envs: seq<string>): map<string, string>
    requires forall i :: 0 <= i < |envs| ==> MatchEnvVar(envs[i]).Some?
    decreases |envs|
  {
    if envs == [] then env
    else
      var m := MatchEnvVar(envs[0]).value;
      EnvOf(env[m.0 := m.1], envs[1..])
  }

  /** The nodes of a finished command and what follows it. */
  function TailMeaning(c: Node, t: Tail): Option<seq<Node>>
    requires ValidTail(t, c.Chdir?) && (c.Command? || c.Chdir?)
    decreases t
  {
    match t
    case End => Some([c])
    case Dangling(_) => Some([c])
    case Then(op, rest) =>
      if op.Pipe? && c.stdout != Inherit then None
      else
        var d := if op.Pipe? then c.(stdout := ToPipe) else c;
        match Meaning(rest)
        case None => None
        case Some(ns) => Some([d, op] + ns)
  }

  function Meaning(sc: Script): Option<seq<Node>>
    requires ValidScript(sc)
    decreases sc
  {
    match sc
    case RunItem(envs, name, pieces, tail) =>
      (match ApplyAll(NewCommand(name).(env := EnvOf(map[], envs)), pieces)
       case None => None
       case Some(c) => TailMeaning(c, tail))
    case CdItem(dir, tail) => TailMeaning(Chdir(dir), tail)
  }

  // ---------- From scripts to the parser ----------

  /** The result of parsing tokens from state s on. */
  function ParseFrom(s: PState, tokens: seq<string>): Option<seq<Node>>
    requires Consistent(s)
  {
    match Steps(s, tokens)
    case None => None
    case Some(t) => if t.current.None? then None else Some(t.nodes + [t.current.value])
  }

  function Prefixed(pre: seq<Node>, r: Option<seq<Node>>): Option<seq<Node>> {
    if r.None? then None else Some(pre + r.value)
  }

  lemma {:induction false} ParseOne(s: PState, token: string, rest: seq<string>)
    requires Consistent(s)
    ensures Step(s, token).None? ==> ParseFrom(s, [token] + rest) == None
    ensures Step(s, token).Some? ==> Consistent(Step(s, token).value)
    ensures Step(s, token).Some? ==> ParseFrom(s, [token] + rest) == ParseFrom(Step(s, token).value, rest)
  {
    var tokens := [token] + rest;
    assert tokens[0] == token && tokens[1..] == rest && tokens != [];
  }

  /** The parser's state while it reads the command or cd c. */
  function Reading(c: Node, pre: seq<Node>): PState
    requires c.Command? || c.Chdir?
  {
    PState(if c.Chdir? then InChdir else InCommand, Some(c), map[], pre)
  }

  lemma {:induction false} StepOp(c: Node, pre: seq<Node>, op: Node)
    requires c.Command? || c.Chdir?
    requires op.IsOp() && (c.Chdir? ==> op.And?)
    ensures Step(Reading(c, pre), OpToken(op))
         == if op.Pipe? && c.stdout != Inherit then None
            else Some(PState(Begin, None, map[], pre + [if op.Pipe? then c.(stdout := ToPipe) else c] + [op]))
  {}

  lemma {:induction false} ParseDangling(c: Node, pre: seq<Node>, token: string)
    requires c.Command? && ValidTail(Dangling(token), false)
    ensures ParseFrom(Reading(c, pre), [token]) == Some(pre + [c])
  {
    ParseOne(Reading(c, pre), token, []);
    assert [token] + [] == [token];
    assert ParseFrom(Step(Reading(c, pre), token).value, []) == Some(pre + [c]);
  }

  /** The list so far when the operator after c is read. */
  function Committed(c: Node, pre: seq<Node>, op: Node): seq<Node> {
    pre + [if op.Pipe? && c.Command? then c.(stdout := ToPipe) else c] + [op]
  }

  lemma {:induction false} ParseThen(c: Node, pre: seq<Node>, op: Node, rest: Script)
    requires c.Command? || c.Chdir?
    requires op.IsOp() && (c.Chdir? ==> op.And?) && ValidScript(rest)
    requires !(op.Pipe? && c.stdout != Inherit) ==>
      ParseFrom(PState(Begin, None, map[], Committed(c, pre, op)), Tokens(rest))
      == Prefixed(Committed(c, pre, op), Meaning(rest))
    ensures ParseFrom(Reading(c, pre), TailTokens(Then(op, rest))) == Prefixed(pre, TailMeaning(c, Then(op, rest)))
  {
    hide Step, ParseFrom, OpToken, Tokens, Meaning, ValidScript;
    ParseOne(Reading(c, pre), OpToken(op), Tokens(rest));
    StepOp(c, pre, op);
    var m := Meaning(rest);
    if !(op.Pipe? && c.stdout != Inherit) && m.Some? {
      var d := if op.Pipe? then c.(stdout := ToPipe) else c;
      assert pre + [d] + [op] + m.value == pre + ([d, op] + m.value);
    }
  }

  lemma {:induction false} ParseTail(c: Node, pre: seq<Node>, t: Tail)
    requires c.Command? || c.Chdir?
    requires ValidTail(t, c.Chdir?)
    ensures ParseFrom(Reading(c, pre), TailTokens(t)) == Prefixed(pre, TailMeaning(c, t))
    decreases t, 1
  {
    match t {
      case End =>
      case Dangling(token) =>
        ParseDangling(c, pre, token);
      case Then(op, rest) =>
        ParseScript(Committed(c, pre, op), rest);
        ParseThen(c, pre, op, rest);
    }
  }

  lemma {:induction false} ParsePieces(c: Node, pre: seq<Node>, ps: seq<Piece>, tokens: seq<string>)
    requires c.Command?
    requires forall i :: 0 <= i < |ps| && ps[i].Word? ==> PlainWord(ps[i].word)
    ensures ParseFrom(PState(InCommand, Some(c), map[], pre), PiecesTokens(ps) + tokens)
         == if ApplyAll(c, ps).None? then None
            else ParseFrom(PState(InCommand, ApplyAll(c, ps), map[], pre), tokens)
    decreases |ps|
  {
    hide ParseFrom;
    var s := PState(InCommand, Some(c), map[], pre);
    if ps == [] {
      assert PiecesTokens(ps) + tokens == tokens;
    } else {
      var p := ps[0];
      var rest := PiecesTokens(ps[1..]) + tokens;
      var mine := PieceTokens(p);
      if |mine| == 1 {
        assert PiecesTokens(ps) + tokens == mine + rest;
        ParseOne(s, mine[0], rest);
      } else {
        assert PiecesTokens(ps) + tokens == [mine[0]] + ([mine[1]] + rest);
        ParseOne(s, mine[0], [mine[1]] + rest);
        ParseOne(Step(s, mine[0]).value, mine[1], rest);
      }
      if Apply(c, p).Some? {
        ParsePieces(Apply(c, p).value, pre, ps[1..], tokens);
      }
    }
  }

  lemma {:induction false} ParseEnvs(env: map<string, string>, pre: seq<Node>, envs: seq<string>, tokens: seq<string>)
    requires forall i :: 0 <= i < |envs| ==> MatchEnvVar(envs[i]).Some?
    ensures ParseFrom(PState(Begin, None, env, pre), envs + tokens)
         == ParseFrom(PState(Begin, None, EnvOf(env, envs), pre), tokens)
    decreases |envs|
  {
    hide ParseFrom, MatchEnvVar;
    if envs == [] {
      assert envs + tokens == tokens;
    } else {
      assert envs + tokens == [envs[0]] + (envs[1..] + tokens);
      ParseOne(PState(Begin, None, env, pre), envs[0], envs[1..] + tokens);
      var m := MatchEnvVar(envs[0]).value;
      ParseEnvs(env[m.0 := m.1], pre, envs[1..], tokens);
    }
  }

  /** On the tokens of a valid script the parser returns its meaning, or fails if it has none. */
  lemma {:induction false} ParseScript(pre: seq<Node>, sc: Script)
    requires ValidScript(sc)
    ensures ParseFrom(PState(Begin, None, map[], pre), Tokens(sc)) == Prefixed(pre, Meaning(sc))
    decreases sc, 2
  {
    match sc {
      case RunItem(envs, name, pieces, tail) =>
        var rest := PiecesTokens(pieces) + TailTokens(tail);
        ParseEnvs(map[], pre, envs, [name] + rest);
        var env := EnvOf(map[], envs);
        ParseOne(PState(Begin, None, env, pre), name, rest);
        var c := NewCommand(name).(env := env);
        ParsePieces(c, pre, pieces, TailTokens(tail));
        if ApplyAll(c, pieces).Some? {
          ParseTail(ApplyAll(c, pieces).value, pre, tail);
        }
      case CdItem(dir, tail) =>
        var s := PState(Begin, None, map[], pre);
        var more := (if dir.Some? then [dir.value] else []) + TailTokens(tail);
        ParseOne(s, "cd", more);
        var t := Step(s, "cd").value;
        if dir.Some? {
          ParseOne(t, dir.value, TailTokens(tail));
        } else {
          assert more == TailTokens(tail);
        }
        ParseTail(Chdir(dir), pre, tail);
    }
  }

  // ---------- From the parser to scripts ----------

  predicate PlainPieces(ps: seq<Piece>) {
    forall i :: 0 <= i < |ps| && ps[i].Word? ==> PlainWord(ps[i].word)
  }

  lemma {:induction false} PieceFirst(p: Piece, ps: seq<Piece>, t: Tail, tokens: seq<string>)
    requires PlainPieces(ps) && PiecesTokens(ps) + TailTokens(t) == tokens
    requires p.Word? ==> PlainWord(p.word)
    ensures PlainPieces([p] + ps) && PiecesTokens([p] + ps) + TailTokens(t) == PieceTokens(p) + tokens
  {
    assert ([p] + ps)[1..] == ps;
    assert PieceTokens(p) + PiecesTokens(ps) + TailTokens(t) == PieceTokens(p) + (PiecesTokens(ps) + TailTokens(t));
  }

  /** Two tokens that name a stream and a file. */
  lemma {:induction false} TwoTokens(s: PState, token: string, file: string, rest: seq<string>)
    returns (a: PState, b: PState)
    requires Consistent(s) && ParseFrom(s, [token] + ([file] + rest)).Some?
    ensures Step(s, token) == Some(a) && Consistent(a)
    ensures Step(a, file) == Some(b) && Consistent(b)
    ensures ParseFrom(b, rest).Some?
    ensures a.mode in {WantStdout, WantStderr, WantStdin} ==> b.mode == InCommand
  {
    ParseOne(s, token, [file] + rest);
    a := Step(s, token).value;
    ParseOne(a, file, rest);
    b := Step(a, file).value;
  }

  /** A command without further pieces. */
  lemma {:induction false} TailAlone(t: Tail)
    requires ValidTail(t, false)
    ensures PlainPieces([]) && PiecesTokens([]) + TailTokens(t) == TailTokens(t)
  {}

  /** The redirection of a stream to or from a file. */
  function Redirect(token: string, file: string): Piece {
    if token == ">" then OutTo(file) else if token == "2>" then ErrTo(file) else InFrom(file)
  }

  /** Which mode a token leads to. */
  lemma {:induction false} ModeAfter(s: PState, token: string)
    requires Consistent(s) && s.mode == InCommand && Step(s, token).Some?
    ensures var mode := Step(s, token).value.mode;
      if token == ">" || token == "2>" || token == "<" then mode in {WantStdout, WantStderr, WantStdin}
      else if token == "|" || token == "&&" || token == "||" then mode == Begin
      else mode == InCommand && (token == "2>&1" || PlainWord(token))
  {}

  lemma {:induction false} ScriptOfCommand(s: PState, tokens: seq<string>) returns (ps: seq<Piece>, t: Tail)
    requires Consistent(s) && s.mode == InCommand && ParseFrom(s, tokens).Some?
    ensures PlainPieces(ps) && ValidTail(t, false) && PiecesTokens(ps) + TailTokens(t) == tokens
    decreases |tokens|
  {
    hide ParseFrom, Step, PlainWord, PiecesTokens, PlainPieces, Tokens;
    if tokens == [] {
      TailAlone(End);
      return [], End;
    }
    var token, rest := tokens[0], tokens[1..];
    assert tokens == [token] + rest;
    ParseOne(s, token, rest);
    ModeAfter(s, token);
    var next := Step(s, token).value;
    if next.mode == Begin {
      var sc := ScriptOfBegin(next, rest);
      ps, t := [], Then(if token == "|" then Pipe else if token == "&&" then And else Or, sc);
      TailAlone(t);
    } else if next.mode == InCommand {
      ps, t := ScriptOfCommand(next, rest);
      var p := if token == "2>&1" then ErrToOut else Word(token);
      PieceFirst(p, ps, t, rest);
      ps := [p] + ps;
    } else if |tokens| == 1 {
      ps, t := [], Dangling(token);
      TailAlone(t);
    } else {
      var file, more := tokens[1], tokens[2..];
      assert rest == [file] + more && tokens == [token] + ([file] + more);
      var wants, last := TwoTokens(s, token, file, more);
      assert wants == next;
      ps, t := ScriptOfCommand(last, more);
      PieceFirst(Redirect(token, file), ps, t, more);
      ps := [Redirect(token, file)] + ps;
    }
  }

  lemma {:induction false} ScriptOfCd(s: PState, tokens: seq<string>) returns (dir: Option<string>, t: Tail)
    requires Consistent(s) && s.mode == InChdir && ParseFrom(s, tokens).Some?
    ensures s.current.value.dir.Some? ==> dir.None?
    ensures dir != Some("&&") && ValidTail(t, true)
    ensures (if dir.Some? then [dir.value] else []) + TailTokens(t) == tokens
    decreases |tokens|
  {
    if tokens == [] { return None, End; }
    var next := Step(s, tokens[0]).value;
    if next.mode == Begin {
      var sc := ScriptOfBegin(next, tokens[1..]);
      dir, t := None, Then(And, sc);
    } else {
      var none;
      none, t := ScriptOfCd(next, tokens[1..]);
      dir := Some(tokens[0]);
    }
  }

  lemma {:induction false} EnvFirst(sc: Script, env: string)
    requires ValidScript(sc) && sc.RunItem? && MatchEnvVar(env).Some?
    ensures ValidScript(sc.(envs := [env] + sc.envs)) && Tokens(sc.(envs := [env] + sc.envs)) == [env] + Tokens(sc)
  {
    hide MatchEnvVar;
    var envs := [env] + sc.envs;
    forall i | 0 <= i < |envs|
      ensures MatchEnvVar(envs[i]).Some?
    {
      assert envs[i] == if i == 0 then env else sc.envs[i - 1];
    }
    EnvTokens(sc, env);
    hide Tokens, ValidTail, PlainWord;
  }

  lemma {:induction false} EnvTokens(sc: Script, env: string)
    requires sc.RunItem?
    ensures Tokens(sc.(envs := [env] + sc.envs)) == [env] + Tokens(sc)
  {
    var body := [sc.name] + (PiecesTokens(sc.pieces) + TailTokens(sc.tail));
    assert [env] + sc.envs + body == [env] + (sc.envs + body);
  }

  lemma {:induction false} ScriptOfBegin(s: PState, tokens: seq<string>) returns (sc: Script)
    requires Consistent(s) && s.mode == Begin && ParseFrom(s, tokens).Some?
    ensures ValidScript(sc) && Tokens(sc) == tokens
    ensures s.env != map[] ==> sc.RunItem?
    decreases |tokens|
  {
    var token, rest := tokens[0], tokens[1..];
    assert tokens == [token] + rest;
    var next := Step(s, token).value;
    if next.mode == Begin {
      var m := MatchEnvVar(token).value;
      assert m.0 in next.env;
      sc := ScriptOfBegin(next, rest);
      EnvFirst(sc, token);
      sc := sc.(envs := [token] + sc.envs);
    } else if next.mode == InCommand {
      var ps, t := ScriptOfCommand(next, rest);
      sc := RunItem([], token, ps, t);
    } else {
      var dir, t := ScriptOfCd(next, rest);
      sc := CdItem(dir, t);
    }
  }

  /** parse accepts exactly the valid scripts that have a meaning, and returns that meaning. */
  lemma {:induction false} ParseIffScript(tokens: seq<string>, nodes: seq<Node>)
    ensures ParseTokens(tokens) == Some(nodes)
       <==> exists sc :: ValidScript(sc) && Tokens(sc) == tokens && Meaning(sc) == Some(nodes)
  {
    if ParseTokens(tokens) == Some(nodes) {
      var sc := ScriptOfBegin(START, tokens);
      ParseScript([], sc);
      assert [] + Meaning(sc).value == Meaning(sc).value;
    }
    if sc :| ValidScript(sc) && Tokens(sc) == tokens && Meaning(sc) == Some(nodes) {
      ParseScript([], sc);
      assert [] + Meaning(sc).value == Meaning(sc).value;
    }
  }

  // ---------- Token by token ----------

  lemma {:induction false} TwoSteps(s: PState, a: string, b: string, t: PState)
    requires Consistent(s) && Step(s, a) == Some(t) && Consistent(t)
    ensures Steps(s, [a, b]) == Step(t, b)
  {
    assert [a, b][1..] == [b] && [b][1..] == [];
    if Step(t, b).Some? {
      assert Steps(Step(t, b).value, []) == Step(t, b);
    }
  }

  /** A redirection takes the next token, and each stream only once. */
  lemma {:induction false} RedirectionTokens(c: Node, pre: seq<Node>, f: string)
    requires c.Command?
    ensures Steps(Reading(c, pre), [">", f])
         == if c.stdout == Inherit then Some(Reading(c.(stdout := ToFile(f)), pre)) else None
    ensures Steps(Reading(c, pre), ["2>", f])
         == if c.stderr == Inherit then Some(Reading(c.(stderr := ToFile(f)), pre)) else None
    ensures Steps(Reading(c, pre), ["<", f])
         == if c.stdin == None then Some(Reading(c.(stdin := Some(f)), pre)) else None
    ensures Step(Reading(c, pre), "2>&1")
         == if c.stderr == Inherit then Some(Reading(c.(stderr := ToStdout), pre)) else None
  {
    TwoSteps(Reading(c, pre), ">", f, Reading(c, pre).(mode := WantStdout));
    TwoSteps(Reading(c, pre), "2>", f, Reading(c, pre).(mode := WantStderr));
    TwoSteps(Reading(c, pre), "<", f, Reading(c, pre).(mode := WantStdin));
  }

  /** An operator ends the command; a pipe takes its standard output.  A cd ends only in &&. */
  lemma {:induction false} OperatorTokens(c: Node, pre: seq<Node>, dir: Option<string>)
    requires c.Command?
    ensures Step(Reading(c, pre), "|")
         == if c.stdout == Inherit then Some(PState(Begin, None, map[], pre + [c.(stdout := ToPipe)] + [Pipe])) else None
    ensures Step(Reading(c, pre), "&&") == Some(PState(Begin, None, map[], pre + [c] + [And]))
    ensures Step(Reading(c, pre), "||") == Some(PState(Begin, None, map[], pre + [c] + [Or]))
    ensures Step(Reading(Chdir(dir), pre), "&&") == Some(PState(Begin, None, map[], pre + [Chdir(dir)] + [And]))
  {}

  /** Any other token is an argument, or the directory of a cd. */
  lemma {:induction false} WordTokens(c: Node, pre: seq<Node>, word: string)
    requires c.Command? && word !in [">", "2>", "2>&1", "<", "|", "&&", "||"]
    ensures Step(Reading(c, pre), word) == Some(Reading(c.(argv := c.argv + [word]), pre))
    ensures Step(Reading(Chdir(None), pre), word) == Some(Reading(Chdir(Some(word)), pre))
  {
    assert forall k :: 0 <= k < 7 ==> [">", "2>", "2>&1", "<", "|", "&&", "||"][k] != word;
  }

  /** At the start of a command: settings of the environment, and then its name, or a cd. */
  lemma {:induction false} FirstTokens(env: map<string, string>, pre: seq<Node>, token: string, k: string, v: string)
    ensures var s := PState(Begin, None, env, pre);
      && (NameChars(k) && NoSpaces(v) && token == k + ("=" + v) ==> Step(s, token) == Some(s.(env := env[k := v])))
      && ('=' !in token && token != "cd" ==>
            Step(s, token) == Some(Reading(Command(token, [token], None, Inherit, Inherit, env), pre)))
      && (token == "cd" ==> Step(s, token) == if env == map[] then Some(Reading(Chdir(None), pre)) else None)
  {
    EnvVarIff(token, k, v);
    if MatchEnvVar(token).Some? {
      var (a, b) := MatchEnvVar(token).value;
      EnvVarIff(token, a, b);
      assert token[|a|] == '=';
    }
    assert '=' !in "cd";
    hide MatchEnvVar;
  }
}
