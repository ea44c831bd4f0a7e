/**
 The unified-diff format of ns-3/utils/check-style.py on values: what Patch.write puts in a
 file, what parse_patchset makes of lines, and the law that ties them.
 */
module PatchFormat {
  import opened Common
  import opened Decimals

  // ---------- Values ----------

  /** Unset is the type 0 a line has before one of its setters runs. */
  datatype Kind = Unset | Src | Dst | Both

  datatype Line = Line(kind: Kind, text: string) {
    predicate IsSrc() { kind == Src || kind == Both }
    predicate IsDst() { kind == Dst || kind == Both }
  }

  datatype Chunk = Chunk(srcPos: int, dstPos: int, lines: seq<Line>)

  datatype Patch = Patch(src: string, dst: string, chunks: seq<Chunk>)

  /** What stops parse_patchset: None.set_dst, an unbound current_chunk, or an unknown line. */
  datatype Failure = AttributeError | UnboundLocalError | InvalidLine

  datatype Result<T> = Ok(value: T) | Err(error: Failure)

  function SrcLines(lines: seq<Line>): seq<Line> {
    if lines == [] then []
    else (if lines[0].IsSrc() then [lines[0]] else []) + SrcLines(lines[1..])
  }

  function DstLines(lines: seq<Line>): seq<Line> {
    if lines == [] then []
    else (if lines[0].IsDst() then [lines[0]] else []) + DstLines(lines[1..])
  }

  predicate PicksOut(lines: seq<Line>, idx: seq<nat>, picked: seq<Line>) {
    |picked| == |idx| && forall k :: 0 <= k < |idx| ==> idx[k] < |lines| && picked[k] == lines[idx[k]]
  }

  lemma {:induction false} PicksMore(lines: seq<Line>, idx: seq<nat>, picked: seq<Line>, l: Line)
    requires PicksOut(lines, idx, picked)
    ensures PicksOut(lines + [l], idx, picked) && PicksOut(lines + [l], idx + [|lines|], picked + [l])
  {}

  lemma {:induction false} SrcPush(lines: seq<Line>, l: Line)
    ensures SrcLines(lines + [l]) == SrcLines(lines) + if l.kind == Src || l.kind == Both then [l] else []
    decreases |lines|
  {
    if lines == [] {
      assert lines + [l] == [l] && [l][1..] == [] && SrcLines([l][1..]) == [];
    } else {
      var all := lines + [l];
      assert all[0] == lines[0] && all[1..] == lines[1..] + [l];
      SrcPush(lines[1..], l);
      Associate(if lines[0].IsSrc() then [lines[0]] else [], SrcLines(lines[1..]),
                if l.kind == Src || l.kind == Both then [l] else []);
    }
  }

  /** The lines that are in the source. */
  function SrcPlaces(lines: seq<Line>): set<nat> {
    set i: nat | i < |lines| && (lines[i].kind == Src || lines[i].kind == Both)
  }

  /** The source side picks them out, in order. */
  lemma {:induction false} SrcSidePicks(lines: seq<Line>) returns (idx: seq<nat>)
    ensures Lists(SrcPlaces(lines), idx) && PicksOut(lines, idx, SrcLines(lines))
    decreases |lines|
  {
    if lines == [] {
      idx := [];
    } else {
      var n := |lines| - 1;
      var before, l := lines[..n], lines[n];
      idx := SrcSidePicks(before);
      SrcPush(before, l);
      assert before + [l] == lines;
      PicksMore(before, idx, SrcLines(before), l);
      if l.kind == Src || l.kind == Both {
        ListsPush(SrcPlaces(before), idx, n);
        assert SrcPlaces(lines) == SrcPlaces(before) + {n};
        idx := idx + [n];
      } else {
        assert SrcPlaces(lines) == SrcPlaces(before);
        assert SrcLines(before) + [] == SrcLines(before);
      }
    }
  }

  lemma {:induction false} DstPush(lines: seq<Line>, l: Line)
    ensures DstLines(lines + [l]) == DstLines(lines) + if l.kind == Dst || l.kind == Both then [l] else []
    decreases |lines|
  {
    if lines == [] {
      assert lines + [l] == [l] && [l][1..] == [] && DstLines([l][1..]) == [];
    } else {
      var all := lines + [l];
      assert all[0] == lines[0] && all[1..] == lines[1..] + [l];
      DstPush(lines[1..], l);
      Associate(if lines[0].IsDst() then [lines[0]] else [], DstLines(lines[1..]),
                if l.kind == Dst || l.kind == Both then [l] else []);
    }
  }

  /** The lines that are in the destination. */
  function DstPlaces(lines: seq<Line>): set<nat> {
    set i: nat | i < |lines| && (lines[i].kind == Dst || lines[i].kind == Both)
  }

  /** The destination side picks them out, in order. */
  lemma {:induction false} DstSidePicks(lines: seq<Line>) returns (idx: seq<nat>)
    ensures Lists(DstPlaces(lines), idx) && PicksOut(lines, idx, DstLines(lines))
    decreases |lines|
  {
    if lines == [] {
      idx := [];
    } else {
      var n := |lines| - 1;
      var before, l := lines[..n], lines[n];
      idx := DstSidePicks(before);
      DstPush(before, l);
      assert before + [l] == lines;
      PicksMore(before, idx, DstLines(before), l);
      if l.kind == Dst || l.kind == Both {
        ListsPush(DstPlaces(before), idx, n);
        assert DstPlaces(lines) == DstPlaces(before) + {n};
        idx := idx + [n];
      } else {
        assert DstPlaces(lines) == DstPlaces(before);
        assert DstLines(before) + [] == DstLines(before);
      }
    }
  }

  // ---------- Numbers ----------

  /** The conversion %d. */
  function PrintInt(n: int): string {
    if n < 0 then "-" + Decimal(-n) else Decimal(n)
  }

  // ---------- Writing ----------

  /** What reached the file, and whether writing stopped with 'invalid patch'. */
  datatype Output = Output(written: seq<string>, raised: bool) {
    function Then(next: Output): Output {
      if raised then this else Output(written + next.written, next.raised)
    }
  }

  function WriteLine(l: Line): Output {
    match l.kind
    case Src => Output(["-" + l.text + "\n"], false)
    case Dst => Output(["+" + l.text + "\n"], false)
    case Both => Output([" " + l.text + "\n"], false)
    case Unset => Output([], true)
  }

  function WriteLines(ls: seq<Line>): Output {
    if ls == [] then Output([], false) else WriteLine(ls[0]).Then(WriteLines(ls[1..]))
  }

  function Counts(pos: int, count: nat, rest: string): string {
    PrintInt(pos) + ("," + (Decimal(count) + rest))
  }

  function ChunkHeader(c: Chunk): string {
    "@@ -" + Counts(c.srcPos, |SrcLines(c.lines)|, " +" + Counts(c.dstPos, |DstLines(c.lines)|, " @@\n"))
  }

  function WriteChunk(c: Chunk): Output {
    Output([ChunkHeader(c)], false).Then(WriteLines(c.lines))
  }

  function WriteChunks(cs: seq<Chunk>): Output {
    if cs == [] then Output([], false) else WriteChunk(cs[0]).Then(WriteChunks(cs[1..]))
  }

  function WriteHeaders(src: string, dst: string): Output {
    Output(["--- " + src + "\n"], false).Then(Output(["+++ " + dst + "\n"], false))
  }

  function WritePatch(p: Patch): Output {
    WriteHeaders(p.src, p.dst).Then(WriteChunks(p.chunks))
  }

  function WriteSet(ps: seq<Patch>): Output {
    if ps == [] then Output([], false) else WritePatch(ps[0]).Then(WriteSet(ps[1..]))
  }

  function Join(pieces: seq<string>): string {
    if pieces == [] then "" else pieces[0] + Join(pieces[1..])
  }

  // ---------- Reading lines ----------

  /** The length of the first line of s, its newline included. */
  function LineLength(s: string): (n: nat)
    requires s != ""
    ensures 0 < n <= |s|
  {
    if s[0] == '\n' || |s| == 1 then 1 else 1 + LineLength(s[1..])
  }

  /** The lines a file yields: each ends with its newline, the last one perhaps without. */
  function FileLines(s: string): seq<string> {
    if s == "" then []
    else [s[..LineLength(s)]] + FileLines(s[LineLength(s)..])
  }

  /** What (.*)$ captures in s: all but one final newline, if nothing else is a newline. */
  function Capture(s: string): (r: Option<string>)
    ensures r.Some? ==> '\n' !in r.value
  {
    if '\n' !in s then Some(s)
    else if s[|s| - 1] == '\n' && '\n' !in s[..|s| - 1] then Some(s[..|s| - 1])
    else None
  }

  function After(prefix: string, s: string): Option<string> {
    if prefix <= s then Some(s[|prefix|..]) else None
  }

  /** The pattern ^prefix(.*)$. */
  function Match(prefix: string, line: string): (r: Option<string>)
    ensures r.Some? ==> '\n' !in r.value
  {
    match After(prefix, line)
    case None => None
    case Some(rest) => Capture(rest)
  }

  /** ([0-9]+),([0-9]+) and what follows; Python's int() of both groups. */
  function MatchCounts(s: string): Option<(nat, nat, string)> {
    var n := DigitRun(s);
    if n == 0 then None
    else match After(",", s[n..])
      case None => None
      case Some(t) =>
        var m := DigitRun(t);
        if m == 0 then None else Some((ReadNat(s[..n]), ReadNat(t[..m]), t[m..]))
  }

  datatype Position = Position(srcPos: nat, srcLen: nat, dstPos: nat, dstLen: nat)

  /** The second half of the pattern of a chunk's first line, from " +" on. */
  function MatchDstCounts(s: string): Option<(nat, nat)> {
    match After(" +", s)
    case None => None
    case Some(t) =>
      match MatchCounts(t)
      case None => None
      case Some(dst) => if After(" @@", dst.2).None? then None else Some((dst.0, dst.1))
  }

  /** The pattern of a chunk's first line. */
  function MatchChunkStart(line: string): Option<Position> {
    match After("@@ -", line)
    case None => None
    case Some(s) =>
      match MatchCounts(s)
      case None => None
      case Some(src) =>
        match MatchDstCounts(src.2)
        case None => None
        case Some(dst) => Some(Position(src.0, src.1, dst.0, dst.1))
  }

  datatype Item =
    | SrcFile(name: string)
    | DstFile(name: string)
    | ChunkStart(position: Position)
    | Text(line: Line)
    | Junk

  /** What a line is, the six patterns tried in the program's order. */
  function Classify(line: string): Item {
    if Match("--- ", line).Some? then SrcFile(Match("--- ", line).value)
    else if Match("+++ ", line).Some? then DstFile(Match("+++ ", line).value)
    else if MatchChunkStart(line).Some? then ChunkStart(MatchChunkStart(line).value)
    else if Match("-", line).Some? then Text(Line(Src, Match("-", line).value))
    else if Match("+", line).Some? then Text(Line(Dst, Match("+", line).value))
    else if Match(" ", line).Some? then Text(Line(Both, Match(" ", line).value))
    else Junk
  }

  // ---------- Parsing ----------

  function AddChunk(p: Patch, c: Chunk): Patch { p.(chunks := p.chunks + [c]) }

  function AddLine(c: Chunk, l: Line): Chunk { c.(lines := c.lines + [l]) }

  function AddLineToPatch(p: Patch, l: Line): Patch
    requires p.chunks != []
  {
    var n := |p.chunks| - 1;
    p.(chunks := p.chunks[..n] + [AddLine(p.chunks[n], l)])
  }

  /** The patch that holds the most recent chunk: the current chunk outlives its patch. */
  function ChunkHolder(ps: seq<Patch>): (k: Option<nat>)
    ensures k.Some? ==> k.value < |ps| && ps[k.value].chunks != []
    ensures k.Some? ==> forall i :: k.value < i < |ps| ==> ps[i].chunks == []
    ensures k.None? ==> forall i :: 0 <= i < |ps| ==> ps[i].chunks == []
  {
    if ps == [] then None
    else if ps[|ps| - 1].chunks != [] then Some(|ps| - 1)
    else ChunkHolder(ps[..|ps| - 1])
  }

  function Step(ps: seq<Patch>, item: Item): Result<seq<Patch>> {
    match item
    case SrcFile(name) => Ok(ps + [Patch(name, "", [])])
    case DstFile(name) =>
      if ps == [] then Err(AttributeError)
      else Ok(ps[|ps| - 1 := ps[|ps| - 1].(dst := name)])
    case ChunkStart(at) =>
      if ps == [] then Err(AttributeError)
      else Ok(ps[|ps| - 1 := AddChunk(ps[|ps| - 1], Chunk(at.srcPos, at.dstPos, []))])
    case Text(l) => (
      match ChunkHolder(ps)
      case None => Err(UnboundLocalError)
      case Some(k) => Ok(ps[k := AddLineToPatch(ps[k], l)]))
    case Junk => Err(InvalidLine)
  }

  function ParseFrom(ps: seq<Patch>, lines: seq<string>): Result<seq<Patch>>
    decreases |lines|
  {
    if lines == [] then Ok(ps)
    else
      match Step(ps, Classify(lines[0]))
      case Err(e) => Err(e)
      case Ok(qs) => ParseFrom(qs, lines[1..])
  }

  /** What parse_patchset returns or raises. */
  function Parse(lines: seq<string>): Result<seq<Patch>> {
    ParseFrom([], lines)
  }

  /** No patch has a chunk yet. */
  predicate NoChunk(ps: seq<Patch>) {
    forall i :: 0 <= i < |ps| ==> ps[i].chunks == []
  }

  /** Which lines stop the parsing after which patches, and with what. */
  predicate Stops(ps: seq<Patch>, item: Item, e: Failure) {
    match e
    case AttributeError => ps == [] && (item.DstFile? || item.ChunkStart?)
    case UnboundLocalError => NoChunk(ps) && item.Text?
    case InvalidLine => item.Junk?
  }

  lemma {:induction false} StepStops(ps: seq<Patch>, item: Item, e: Failure)
    ensures Step(ps, item) == Err(e) <==> Stops(ps, item, e)
  {
    if ChunkHolder(ps).Some? {
      assert ps[ChunkHolder(ps).value].chunks != [];
    }
  }

  /** The first line that stops the parsing is at k, after the given patches. */
  ghost predicate StopsAtLine(lines: seq<string>, k: nat, e: Failure) {
    k < |lines| && Parse(lines[..k]).Ok? && Stops(Parse(lines[..k]).value, Classify(lines[k]), e)
  }

  lemma {:induction false} ParseFromStops(ps: seq<Patch>, lines: seq<string>) returns (k: nat)
    requires ParseFrom(ps, lines).Err?
    ensures k < |lines| && ParseFrom(ps, lines[..k]).Ok?
    ensures Stops(ParseFrom(ps, lines[..k]).value, Classify(lines[k]), ParseFrom(ps, lines).error)
    decreases |lines|
  {
    var item := Classify(lines[0]);
    match Step(ps, item) {
      case Err(e) =>
        StepStops(ps, item, e);
        k := 0;
        assert lines[..0] == [];
      case Ok(qs) =>
        var n := ParseFromStops(qs, lines[1..]);
        k := n + 1;
        assert lines[..k][1..] == lines[1..][..n] && lines[..k][0] == lines[0];
    }
  }

  /** A failing parse fails at some line for one of the three reasons. */
  lemma {:induction false} ParseStops(lines: seq<string>)
    requires Parse(lines).Err?
    ensures exists k: nat :: StopsAtLine(lines, k, Parse(lines).error)
  {
    var k := ParseFromStops([], lines);
    assert StopsAtLine(lines, k, Parse(lines).error);
  }

  // ---------- The condition of the round trip ----------

  predicate CleanLine(l: Line) {
    && l.kind != Unset
    && '\n' !in l.text
    && !(l.kind == Src && "-- " <= l.text)
    && !(l.kind == Dst && "++ " <= l.text)
  }

  predicate CleanLines(ls: seq<Line>) {
    forall i :: 0 <= i < |ls| ==> CleanLine(ls[i])
  }

  predicate CleanChunk(c: Chunk) {
    c.srcPos >= 0 && c.dstPos >= 0 && CleanLines(c.lines)
  }

  predicate CleanChunks(cs: seq<Chunk>) {
    forall i :: 0 <= i < |cs| ==> CleanChunk(cs[i])
  }

  predicate CleanPatch(p: Patch) {
    '\n' !in p.src && '\n' !in p.dst && CleanChunks(p.chunks)
  }

  predicate Clean(ps: seq<Patch>) {
    forall i :: 0 <= i < |ps| ==> CleanPatch(ps[i])
  }

  // ---------- Every parse is clean ----------

  /** A line read as text does not start like a file header, or it would have been read as one. */
  lemma {:induction false} TextIsClean(line: string)
    requires Classify(line).Text?
    ensures CleanLine(Classify(line).line)
  {
    assert "-" + "-- " == "--- " && "+" + "++ " == "+++ ";
  }

  lemma {:induction false} StepKeepsClean(ps: seq<Patch>, line: string)
    requires Clean(ps)
    ensures Step(ps, Classify(line)).Ok? ==> Clean(Step(ps, Classify(line)).value)
  {
    match Classify(line) {
      case Text(l) =>
        TextIsClean(line);
      case ChunkStart(at) =>
        if ps != [] {
          assert CleanChunk(Chunk(at.srcPos, at.dstPos, []));
          assert CleanPatch(ps[|ps| - 1]);
        }
      case _ =>
    }
  }

  lemma {:induction false} ParseKeepsClean(ps: seq<Patch>, lines: seq<string>)
    requires Clean(ps) && ParseFrom(ps, lines).Ok?
    ensures Clean(ParseFrom(ps, lines).value)
    decreases |lines|
  {
    if lines != [] {
      StepKeepsClean(ps, lines[0]);
      ParseKeepsClean(Step(ps, Classify(lines[0])).value, lines[1..]);
    }
  }

  // ---------- What was written reads back ----------

  lemma {:induction false} MatchOwn(prefix: string, text: string)
    requires '\n' !in text
    ensures Match(prefix, prefix + text + "\n") == Some(text)
  {
    assert (prefix + text + "\n")[|prefix|..] == text + "\n";
  }

  lemma {:induction false} PrefixOfTerminated(header: string, text: string)
    requires header <= text + "\n" && '\n' !in header
    ensures header <= text
  {
    if header != "" {
      assert header[|header| - 1] in header;
      assert |header| <= |text|;
      assert header == (text + "\n")[..|header|] == text[..|header|];
    }
  }

  lemma {:induction false} HeaderNeedsText(sign: string, header: string, text: string)
    requires |sign| == 1 && '\n' !in header
    requires Match(sign + header, sign + text + "\n").Some?
    ensures header <= text
  {
    var line := sign + text + "\n";
    assert line[1..] == text + "\n";
    assert header == (sign + header)[1..] <= line[1..];
    PrefixOfTerminated(header, text);
  }

  /** A pattern fails on a line that starts with another character. */
  lemma {:induction false} OtherStart(prefix: string, line: string)
    requires prefix != "" && line != "" && prefix[0] != line[0]
    ensures After(prefix, line).None? && Match(prefix, line).None?
  {}

  lemma {:induction false} ClassifySrc(text: string)
    requires CleanLine(Line(Src, text))
    ensures Classify("-" + text + "\n") == Text(Line(Src, text))
  {
    var line := "-" + text + "\n";
    assert "-" + "-- " == "--- ";
    if Match("--- ", line).Some? {
      HeaderNeedsText("-", "-- ", text);
    }
    OtherStart("+++ ", line);
    OtherStart("@@ -", line);
    MatchOwn("-", text);
  }

  lemma {:induction false} ClassifyDst(text: string)
    requires CleanLine(Line(Dst, text))
    ensures Classify("+" + text + "\n") == Text(Line(Dst, text))
  {
    var line := "+" + text + "\n";
    assert "+" + "++ " == "+++ ";
    if Match("+++ ", line).Some? {
      HeaderNeedsText("+", "++ ", text);
    }
    OtherStart("--- ", line);
    OtherStart("@@ -", line);
    OtherStart("-", line);
    MatchOwn("+", text);
  }

  lemma {:induction false} ClassifyBoth(text: string)
    requires CleanLine(Line(Both, text))
    ensures Classify(" " + text + "\n") == Text(Line(Both, text))
  {
    var line := " " + text + "\n";
    OtherStart("--- ", line);
    OtherStart("+++ ", line);
    OtherStart("@@ -", line);
    OtherStart("-", line);
    OtherStart("+", line);
    MatchOwn(" ", text);
  }

  lemma {:induction false} NumberReads(n: nat, rest: string)
    requires rest != "" && !IsDigit(rest[0])
    ensures DigitRun(Decimal(n) + rest) == |Decimal(n)| > 0
    ensures ReadNat((Decimal(n) + rest)[..|Decimal(n)|]) == n
    ensures (Decimal(n) + rest)[|Decimal(n)|..] == rest
  {
    RunOfDecimal(Decimal(n), rest);
    ReadDecimal(n);
    assert (Decimal(n) + rest)[..|Decimal(n)|] == Decimal(n);
  }

  lemma {:induction false} CountsRead(pos: nat, count: nat, rest: string)
    requires rest != "" && !IsDigit(rest[0])
    ensures MatchCounts(Counts(pos, count, rest)) == Some((pos, count, rest))
  {
    NumberReads(pos, "," + (Decimal(count) + rest));
    assert ("," + (Decimal(count) + rest))[1..] == Decimal(count) + rest;
    NumberReads(count, rest);
  }

  lemma {:induction false} DstCountsRead(pos: nat, count: nat)
    ensures MatchDstCounts(" +" + Counts(pos, count, " @@\n")) == Some((pos, count))
  {
    hide Counts, MatchCounts;
    CountsRead(pos, count, " @@\n");
    assert (" +" + Counts(pos, count, " @@\n"))[2..] == Counts(pos, count, " @@\n");
  }

  lemma {:induction false} StartReads(a: nat, m: nat, rest: string, dst: (nat, nat))
    requires rest != "" && !IsDigit(rest[0]) && MatchDstCounts(rest) == Some(dst)
    ensures MatchChunkStart("@@ -" + Counts(a, m, rest)) == Some(Position(a, m, dst.0, dst.1))
  {
    hide Counts, MatchCounts, MatchDstCounts;
    CountsRead(a, m, rest);
    assert ("@@ -" + Counts(a, m, rest))[4..] == Counts(a, m, rest);
  }

  /**
   The first line of a written chunk reads back as its positions, and the counts on it are the
   lengths of the chunk's two projections.
   */
  lemma {:induction false} ChunkHeaderReads(c: Chunk)
    requires c.srcPos >= 0 && c.dstPos >= 0
    ensures Classify(ChunkHeader(c))
         == ChunkStart(Position(c.srcPos, |SrcLines(c.lines)|, c.dstPos, |DstLines(c.lines)|))
  {
    var m, n := |SrcLines(c.lines)|, |DstLines(c.lines)|;
    DstCountsRead(c.dstPos, n);
    StartReads(c.srcPos, m, " +" + Counts(c.dstPos, n, " @@\n"), (c.dstPos, n));
    OtherStart("--- ", ChunkHeader(c));
    OtherStart("+++ ", ChunkHeader(c));
  }

  lemma {:induction false} ClassifyHeaders(name: string)
    requires '\n' !in name
    ensures Classify("--- " + name + "\n") == SrcFile(name)
    ensures Classify("+++ " + name + "\n") == DstFile(name)
  {
    MatchOwn("--- ", name);
    MatchOwn("+++ ", name);
    OtherStart("--- ", "+++ " + name + "\n");
  }

  lemma {:induction false} ParseAppend(ps: seq<Patch>, xs: seq<string>, ys: seq<string>)
    requires ParseFrom(ps, xs).Ok?
    ensures ParseFrom(ps, xs + ys) == ParseFrom(ParseFrom(ps, xs).value, ys)
    decreases |xs|
  {
    if xs == [] {
      assert xs + ys == ys;
    } else {
      assert (xs + ys)[1..] == xs[1..] + ys;
      ParseAppend(Step(ps, Classify(xs[0])).value, xs[1..], ys);
    }
  }

  /** Nothing was raised, and parsing what was written takes ps to qs. */
  predicate Reads(ps: seq<Patch>, out: Output, qs: seq<Patch>) {
    !out.raised && ParseFrom(ps, out.written) == Ok(qs)
  }

  lemma {:induction false} ReadsNothing(ps: seq<Patch>)
    ensures Reads(ps, Output([], false), ps)
  {}

  lemma {:induction false} ReadsOne(ps: seq<Patch>, line: string, qs: seq<Patch>)
    requires Step(ps, Classify(line)) == Ok(qs)
    ensures Reads(ps, Output([line], false), qs)
  {
    assert [line][1..] == [];
    assert ParseFrom(qs, []) == Ok(qs);
  }

  lemma {:induction false} ReadsThen(ps: seq<Patch>, one: Output, qs: seq<Patch>, two: Output, rs: seq<Patch>)
    requires Reads(ps, one, qs) && Reads(qs, two, rs)
    ensures Reads(ps, one.Then(two), rs)
  {
    ParseAppend(ps, one.written, two.written);
  }

  lemma {:induction false} Shift<T>(xs: seq<T>, ys: seq<T>)
    requires ys != []
    ensures (xs + [ys[0]]) + ys[1..] == xs + ys
  {}

  lemma {:induction false} LineReadsBack(ps: seq<Patch>, p: Patch, c: Chunk, l: Line)
    requires CleanLine(l)
    ensures Reads(ps + [AddChunk(p, c)], WriteLine(l), ps + [AddChunk(p, AddLine(c, l))])
  {
    match l.kind {
      case Src => ClassifySrc(l.text);
      case Dst => ClassifyDst(l.text);
      case Both => ClassifyBoth(l.text);
    }
    var open, q := ps + [AddChunk(p, c)], AddChunk(p, c);
    assert q.chunks[..|q.chunks| - 1] == p.chunks;
    assert AddLineToPatch(q, l) == AddChunk(p, AddLine(c, l));
    assert open[|ps| := AddChunk(p, AddLine(c, l))] == ps + [AddChunk(p, AddLine(c, l))];
    ReadsOne(open, WriteLine(l).written[0], ps + [AddChunk(p, AddLine(c, l))]);
  }

  lemma {:induction false} LinesReadBack(ps: seq<Patch>, p: Patch, c: Chunk, ls: seq<Line>, d: Chunk)
    requires CleanLines(ls) && d == c.(lines := c.lines + ls)
    ensures Reads(ps + [AddChunk(p, c)], WriteLines(ls), ps + [AddChunk(p, d)])
    decreases |ls|
  {
    var start := ps + [AddChunk(p, c)];
    if ls == [] {
      assert d == c;
      ReadsNothing(start);
    } else {
      var grown := AddLine(c, ls[0]);
      LineReadsBack(ps, p, c, ls[0]);
      Shift(c.lines, ls);
      LinesReadBack(ps, p, grown, ls[1..], d);
      ReadsThen(start, WriteLine(ls[0]), ps + [AddChunk(p, grown)], WriteLines(ls[1..]), ps + [AddChunk(p, d)]);
    }
  }

  lemma {:induction false} ChunkReadsBack(ps: seq<Patch>, p: Patch, c: Chunk)
    requires CleanChunk(c)
    ensures Reads(ps + [p], WriteChunk(c), ps + [AddChunk(p, c)])
  {
    var open, blank := ps + [p], Chunk(c.srcPos, c.dstPos, []);
    ChunkHeaderReads(c);
    assert open[|ps| := AddChunk(p, blank)] == ps + [AddChunk(p, blank)];
    ReadsOne(open, ChunkHeader(c), ps + [AddChunk(p, blank)]);
    assert blank.lines + c.lines == c.lines;
    LinesReadBack(ps, p, blank, c.lines, c);
    ReadsThen(open, Output([ChunkHeader(c)], false), ps + [AddChunk(p, blank)], WriteLines(c.lines),
              ps + [AddChunk(p, c)]);
  }

  lemma {:induction false} ChunksReadBack(ps: seq<Patch>, p: Patch, cs: seq<Chunk>, q: Patch)
    requires CleanChunks(cs) && q == p.(chunks := p.chunks + cs)
    ensures Reads(ps + [p], WriteChunks(cs), ps + [q])
    decreases |cs|
  {
    if cs == [] {
      assert q == p;
      ReadsNothing(ps + [p]);
    } else {
      ChunkReadsBack(ps, p, cs[0]);
      Shift(p.chunks, cs);
      ChunksReadBack(ps, AddChunk(p, cs[0]), cs[1..], q);
      ReadsThen(ps + [p], WriteChunk(cs[0]), ps + [AddChunk(p, cs[0])], WriteChunks(cs[1..]), ps + [q]);
    }
  }

  lemma {:induction false} HeadersReadBack(ps: seq<Patch>, src: string, dst: string)
    requires '\n' !in src && '\n' !in dst
    ensures Reads(ps, WriteHeaders(src, dst), ps + [Patch(src, dst, [])])
  {
    ClassifyHeaders(src);
    ClassifyHeaders(dst);
    var open := ps + [Patch(src, "", [])];
    ReadsOne(ps, "--- " + src + "\n", open);
    assert open[|open| - 1 := Patch(src, dst, [])] == ps + [Patch(src, dst, [])];
    ReadsOne(open, "+++ " + dst + "\n", ps + [Patch(src, dst, [])]);
    ReadsThen(ps, Output(["--- " + src + "\n"], false), open, Output(["+++ " + dst + "\n"], false),
              ps + [Patch(src, dst, [])]);
  }

  lemma {:induction false} PatchReadsBack(ps: seq<Patch>, p: Patch)
    requires CleanPatch(p)
    ensures Reads(ps, WritePatch(p), ps + [p])
  {
    var bare := Patch(p.src, p.dst, []);
    HeadersReadBack(ps, p.src, p.dst);
    assert bare.chunks + p.chunks == p.chunks;
    ChunksReadBack(ps, bare, p.chunks, p);
    ReadsThen(ps, WriteHeaders(p.src, p.dst), ps + [bare], WriteChunks(p.chunks), ps + [p]);
  }

  lemma {:induction false} SetReadsBack(ps: seq<Patch>, qs: seq<Patch>, rs: seq<Patch>)
    requires Clean(qs) && rs == ps + qs
    ensures Reads(ps, WriteSet(qs), rs)
    decreases |qs|
  {
    if qs == [] {
      assert rs == ps;
      ReadsNothing(ps);
    } else {
      PatchReadsBack(ps, qs[0]);
      Shift(ps, qs);
      SetReadsBack(ps + [qs[0]], qs[1..], rs);
      ReadsThen(ps, WritePatch(qs[0]), ps + [qs[0]], WriteSet(qs[1..]), rs);
    }
  }

  // ---------- From the file's text back to lines ----------

  /** A line as write emits it: one newline, at its end. */
  predicate Terminated(line: string) {
    line != "" && line[|line| - 1] == '\n' && '\n' !in line[..|line| - 1]
  }

  lemma {:induction false} FirstLine(line: string, rest: string)
    requires Terminated(line)
    ensures LineLength(line + rest) == |line|
  {
    if |line| > 1 {
      assert line[0] in line[..|line| - 1];
      var tail := line[1..];
      assert tail[..|tail| - 1] == line[..|line| - 1][1..];
      assert (line + rest)[1..] == tail + rest;
      FirstLine(tail, rest);
    }
  }

  lemma {:induction false} LinesOfJoin(lines: seq<string>)
    requires forall line :: line in lines ==> Terminated(line)
    ensures FileLines(Join(lines)) == lines
    decreases |lines|
  {
    if lines != [] {
      var text := Join(lines);
      FirstLine(lines[0], Join(lines[1..]));
      assert text[..|lines[0]|] == lines[0] && text[|lines[0]|..] == Join(lines[1..]);
      LinesOfJoin(lines[1..]);
    }
  }

  lemma {:induction false} TerminatedLine(prefix: string, text: string)
    requires '\n' !in prefix && '\n' !in text
    ensures Terminated(prefix + text + "\n")
  {
    var line := prefix + text + "\n";
    assert line[..|line| - 1] == prefix + text;
  }

  lemma {:induction false} TerminatedTail(prefix: string, rest: string)
    requires '\n' !in prefix && Terminated(rest)
    ensures Terminated(prefix + rest)
  {
    var line := prefix + rest;
    assert line[..|line| - 1] == prefix + rest[..|rest| - 1];
  }

  lemma {:induction false} TerminatedCounts(pos: int, count: nat, rest: string)
    requires Terminated(rest)
    ensures Terminated(Counts(pos, count, rest))
  {
    TerminatedTail(Decimal(count), rest);
    TerminatedTail(",", Decimal(count) + rest);
    TerminatedTail(PrintInt(pos), "," + (Decimal(count) + rest));
  }

  lemma {:induction false} TerminatedHeader(c: Chunk)
    ensures Terminated(ChunkHeader(c))
  {
    TerminatedCounts(c.dstPos, |DstLines(c.lines)|, " @@\n");
    var tail := Counts(c.dstPos, |DstLines(c.lines)|, " @@\n");
    TerminatedTail(" +", tail);
    TerminatedCounts(c.srcPos, |SrcLines(c.lines)|, " +" + tail);
    TerminatedTail("@@ -", Counts(c.srcPos, |SrcLines(c.lines)|, " +" + tail));
  }

  predicate AllTerminated(lines: seq<string>) {
    forall line :: line in lines ==> Terminated(line)
  }

  lemma {:induction false} LinesTerminated(ls: seq<Line>)
    requires CleanLines(ls)
    ensures AllTerminated(WriteLines(ls).written)
    decreases |ls|
  {
    if ls != [] {
      assert CleanLine(ls[0]);
      TerminatedLine("-", ls[0].text);
      TerminatedLine("+", ls[0].text);
      TerminatedLine(" ", ls[0].text);
      LinesTerminated(ls[1..]);
    }
  }

  lemma {:induction false} ChunksTerminated(cs: seq<Chunk>)
    requires CleanChunks(cs)
    ensures AllTerminated(WriteChunks(cs).written)
    decreases |cs|
  {
    if cs != [] {
      assert CleanChunk(cs[0]);
      TerminatedHeader(cs[0]);
      LinesTerminated(cs[0].lines);
      ChunksTerminated(cs[1..]);
    }
  }

  lemma {:induction false} SetTerminated(ps: seq<Patch>)
    requires Clean(ps)
    ensures AllTerminated(WriteSet(ps).written)
    decreases |ps|
  {
    if ps != [] {
      assert CleanPatch(ps[0]);
      TerminatedLine("--- ", ps[0].src);
      TerminatedLine("+++ ", ps[0].dst);
      ChunksTerminated(ps[0].chunks);
      SetTerminated(ps[1..]);
    }
  }

  // ---------- Main results ----------

  /** Writing ps succeeds and reading the file gives ps back. */
  predicate RoundTrips(ps: seq<Patch>) {
    && !WriteSet(ps).raised
    && Parse(FileLines(Join(WriteSet(ps).written))) == Ok(ps)
  }

  /**
   A list of patches survives writing and parsing exactly when it is clean: every line has a
   side, positions are not negative, no name or text holds a newline, no removed text starts
   with "-- " and no added text with "++ ".
   */
  lemma {:induction false} RoundTripsIffClean(ps: seq<Patch>)
    ensures RoundTrips(ps) <==> Clean(ps)
  {
    if RoundTrips(ps) {
      ParseKeepsClean([], FileLines(Join(WriteSet(ps).written)));
    }
    if Clean(ps) {
      SetReadsBack([], ps, ps);
      SetTerminated(ps);
      LinesOfJoin(WriteSet(ps).written);
    }
  }

  /**
   Whatever input was parsed, however wrong its counts, writing the result and parsing again
   changes nothing.
   */
  lemma {:induction false} ReparseIsStable(lines: seq<string>)
    requires Parse(lines).Ok?
    ensures RoundTrips(Parse(lines).value)
  {
    ParseKeepsClean([], lines);
    RoundTripsIffClean(Parse(lines).value);
  }

  lemma {:induction false} SrcAppend(xs: seq<Line>, ys: seq<Line>)
    ensures |SrcLines(xs + ys)| == |SrcLines(xs)| + |SrcLines(ys)|
    decreases |xs|
  {
    if xs == [] {
      assert xs + ys == ys;
    } else {
      assert (xs + ys)[1..] == xs[1..] + ys;
      SrcAppend(xs[1..], ys);
    }
  }

  lemma {:induction false} DstAppend(xs: seq<Line>, ys: seq<Line>)
    ensures |DstLines(xs + ys)| == |DstLines(xs)| + |DstLines(ys)|
    decreases |xs|
  {
    if xs == [] {
      assert xs + ys == ys;
    } else {
      assert (xs + ys)[1..] == xs[1..] + ys;
      DstAppend(xs[1..], ys);
    }
  }

  /**
   The two counts delimit the chunk: counting lines off as they are read, the counts run out
   exactly at the chunk's last line.
   */
  lemma {:induction false} CountsDelimitChunk(lines: seq<Line>, k: nat)
    requires k <= |lines| && forall l :: l in lines ==> l.kind != Unset
    ensures |SrcLines(lines[..k])| <= |SrcLines(lines)|
    ensures |DstLines(lines[..k])| <= |DstLines(lines)|
    ensures (|SrcLines(lines[..k])| == |SrcLines(lines)| && |DstLines(lines[..k])| == |DstLines(lines)|)
       <==> k == |lines|
  {
    var rest := lines[k..];
    assert lines == lines[..k] + rest;
    SrcAppend(lines[..k], rest);
    DstAppend(lines[..k], rest);
    if rest != [] {
      assert rest[0] in lines;
      assert rest[0].IsSrc() || rest[0].IsDst();
    }
  }

  /** A removed line "-- x" is written as "--- x" and read as the header of another patch. */
  lemma {:induction false} HeaderLookalike()
    ensures !RoundTrips([Patch("a", "b", [Chunk(1, 1, [Line(Src, "-- x")])])])
  {
    var l := Line(Src, "-- x");
    var c := Chunk(1, 1, [l]);
    var p := Patch("a", "b", [c]);
    assert l in c.lines && c in p.chunks && p in [p];
    assert !CleanLine(l);
    RoundTripsIffClean([p]);
  }

  // ---------- One patch spelled out ----------

  const SAMPLE := Patch("a.c", "b.c", [Chunk(12, 7, [Line(Both, "x"), Line(Src, "y"), Line(Dst, "z"), Line(Dst, "")])])

  lemma {:induction false} SampleSides()
    ensures |SrcLines(SAMPLE.chunks[0].lines)| == 2 && |DstLines(SAMPLE.chunks[0].lines)| == 3
  {
    var lines := SAMPLE.chunks[0].lines;
    var one, two, three := [lines[0]], [lines[0], lines[1]], [lines[0], lines[1], lines[2]];
    assert |SrcLines([])| == 0 && |DstLines([])| == 0;
    assert [] + [lines[0]] == one && one + [lines[1]] == two && two + [lines[2]] == three && three + [lines[3]] == lines;
    hide SrcLines, DstLines;
    SrcPush([], lines[0]);
    SrcPush(one, lines[1]);
    SrcPush(two, lines[2]);
    SrcPush(three, lines[3]);
    DstPush([], lines[0]);
    DstPush(one, lines[1]);
    DstPush(two, lines[2]);
    DstPush(three, lines[3]);
  }

  lemma {:induction false} SampleNumbers()
    ensures Decimal(12) == "12" && Decimal(2) == "2" && Decimal(7) == "7" && Decimal(3) == "3"
    ensures PrintInt(-10) == "-10"
  {
    assert Decimal(1) == "1";
    assert Decimal(10) == "10";
  }

  lemma {:induction false} SampleHeader()
    ensures ChunkHeader(SAMPLE.chunks[0]) == "@@ -12,2 +7,3 @@\n"
  {
    hide SrcLines, DstLines, Decimal;
    SampleSides();
    SampleNumbers();
    assert Counts(7, 3, " @@\n") == "7,3 @@\n";
    assert Counts(12, 2, " +7,3 @@\n") == "12,2 +7,3 @@\n";
    hide Counts;
    assert " +" + "7,3 @@\n" == " +7,3 @@\n" && "@@ -" + "12,2 +7,3 @@\n" == "@@ -12,2 +7,3 @@\n";
  }

  lemma {:induction false} SampleLines()
    ensures WriteLines(SAMPLE.chunks[0].lines) == Output([" x\n", "-y\n", "+z\n", "+\n"], false)
  {
    var lines := SAMPLE.chunks[0].lines;
    assert WriteLine(lines[0]) == Output([" x\n"], false) && WriteLine(lines[1]) == Output(["-y\n"], false) by {
      assert " " + "x" + "\n" == " x\n" && "-" + "y" + "\n" == "-y\n";
    }
    assert WriteLine(lines[2]) == Output(["+z\n"], false) && WriteLine(lines[3]) == Output(["+\n"], false) by {
      assert "+" + "z" + "\n" == "+z\n" && "+" + "" + "\n" == "+\n";
    }
    assert lines[1..] == [lines[1], lines[2], lines[3]] && lines[1..][1..] == [lines[2], lines[3]];
    assert lines[1..][1..][1..] == [lines[3]] && lines[1..][1..][1..][1..] == [];
    hide WriteLine;
    assert WriteLines([lines[3]][1..]) == Output([], false);
    assert WriteLines([lines[3]]) == Output(["+\n"], false);
    assert WriteLines(lines[1..][1..]) == Output(["+z\n", "+\n"], false);
    assert WriteLines(lines[1..]) == Output(["-y\n", "+z\n", "+\n"], false);
  }

  /** A patch as it is written. */
  lemma {:induction false} SampleWritten()
    ensures WritePatch(SAMPLE)
         == Output(["--- a.c\n", "+++ b.c\n", "@@ -12,2 +7,3 @@\n", " x\n", "-y\n", "+z\n", "+\n"], false)
  {
    SampleHeader();
    SampleLines();
    hide ChunkHeader, WriteLines;
    assert SAMPLE.chunks[1..] == [];
    assert WriteChunks(SAMPLE.chunks[1..]) == Output([], false);
    assert WriteChunks(SAMPLE.chunks) == Output(["@@ -12,2 +7,3 @@\n", " x\n", "-y\n", "+z\n", "+\n"], false);
    assert "--- " + "a.c" + "\n" == "--- a.c\n" && "+++ " + "b.c" + "\n" == "+++ b.c\n";
  }
}
