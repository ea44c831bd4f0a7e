/**
 The patch classes of ns-3/utils/check-style.py and its loop parse_patchset, over mutable
 objects that share chunks and lines the way the program's lists do. A file being written is
 the list of strings handed to its write method so far.
 */
module PatchSet {
  import C = Common
  import F = PatchFormat

  type File = seq<string>

  // ---------- Writing on, element by element ----------

  /** Writing vs from i on to f gives all, and raises iff fails. */
  predicate LinesPending(f: File, vs: seq<F.Line>, i: nat, all: File, fails: bool) {
    i <= |vs| && f + F.WriteLines(vs[i..]).written == all && F.WriteLines(vs[i..]).raised == fails
  }

  predicate ChunksPending(f: File, vs: seq<F.Chunk>, i: nat, all: File, fails: bool) {
    i <= |vs| && f + F.WriteChunks(vs[i..]).written == all && F.WriteChunks(vs[i..]).raised == fails
  }

  lemma {:induction false} ThenAppends(f: File, a: F.Output, b: F.Output)
    ensures f + a.Then(b).written == if a.raised then f + a.written else f + a.written + b.written
  {}

  lemma {:induction false} NextLine(f: File, vs: seq<F.Line>, i: nat, all: File, fails: bool)
    requires LinesPending(f, vs, i, all, fails) && i < |vs|
    ensures
      var one := F.WriteLine(vs[i]);
      if one.raised then f + one.written == all && fails
      else LinesPending(f + one.written, vs, i + 1, all, fails)
  {
    assert vs[i..][1..] == vs[i + 1..];
    ThenAppends(f, F.WriteLine(vs[i]), F.WriteLines(vs[i + 1..]));
  }

  lemma {:induction false} NextChunk(f: File, vs: seq<F.Chunk>, i: nat, all: File, fails: bool)
    requires ChunksPending(f, vs, i, all, fails) && i < |vs|
    ensures
      var one := F.WriteChunk(vs[i]);
      if one.raised then f + one.written == all && fails
      else ChunksPending(f + one.written, vs, i + 1, all, fails)
  {
    assert vs[i..][1..] == vs[i + 1..];
    ThenAppends(f, F.WriteChunk(vs[i]), F.WriteChunks(vs[i + 1..]));
  }

  lemma {:induction false} LinesWritten(f: File, vs: seq<F.Line>, all: File, fails: bool)
    requires LinesPending(f, vs, |vs|, all, fails)
    ensures f == all && !fails
  {}

  lemma {:induction false} ChunksWritten(f: File, vs: seq<F.Chunk>, all: File, fails: bool)
    requires ChunksPending(f, vs, |vs|, all, fails)
    ensures f == all && !fails
  {}

  // ---------- The classes ----------

  class PatchChunkLine {
    var kind: F.Kind
    var text: string

    constructor ()
      ensures Value() == F.Line(F.Unset, "")
    {
      kind, text := F.Unset, "";
    }

    function Value(): F.Line
      reads this
    {
      F.Line(kind, text)
    }

    method SetSrc(line: string)
      modifies this
      ensures Value() == F.Line(F.Src, line)
    {
      kind, text := F.Src, line;
    }

    method SetDst(line: string)
      modifies this
      ensures Value() == F.Line(F.Dst, line)
    {
      kind, text := F.Dst, line;
    }

    method SetBoth(line: string)
      modifies this
      ensures Value() == F.Line(F.Both, line)
    {
      kind, text := F.Both, line;
    }

    /** raised tells that 'invalid patch' was raised. */
    method Write(f: File) returns (g: File, raised: bool)
      ensures g == f + F.WriteLine(Value()).written
      ensures raised == F.WriteLine(Value()).raised
    {
      g, raised := f, false;
      if kind == F.Src {
        g := g + ["-" + text + "\n"];
      } else if kind == F.Dst {
        g := g + ["+" + text + "\n"];
      } else if kind == F.Both {
        g := g + [" " + text + "\n"];
      } else {
        raised := true;
      }
    }
  }

  function LineValues(ls: seq<PatchChunkLine>): (r: seq<F.Line>)
    reads ls
    ensures |r| == |ls| && forall i :: 0 <= i < |ls| ==> r[i] == ls[i].Value()
  {
    seq(|ls|, i requires 0 <= i < |ls| reads ls => ls[i].Value())
  }

  lemma {:induction false} AnotherLine(ls: seq<PatchChunkLine>, l: PatchChunkLine)
    ensures LineValues(ls + [l]) == LineValues(ls) + [l.Value()]
  {}

  lemma {:induction false} NextSrc(vs: seq<F.Line>, i: nat, before: seq<F.Line>)
    requires i < |vs|
    ensures before + F.SrcLines(vs[i..])
         == (if vs[i].IsSrc() then before + [vs[i]] else before) + F.SrcLines(vs[i + 1..])
  {
    assert vs[i..][1..] == vs[i + 1..];
  }

  lemma {:induction false} NextDst(vs: seq<F.Line>, i: nat, before: seq<F.Line>)
    requires i < |vs|
    ensures before + F.DstLines(vs[i..])
         == (if vs[i].IsDst() then before + [vs[i]] else before) + F.DstLines(vs[i + 1..])
  {
    assert vs[i..][1..] == vs[i + 1..];
  }

  /** After the header the lines are still to be written. */
  lemma {:induction false} HeaderFirst(f: File, c: F.Chunk, header: string)
    requires header == F.ChunkHeader(c)
    ensures LinesPending(f + [header], c.lines, 0, f + F.WriteChunk(c).written, F.WriteChunk(c).raised)
  {
    assert c.lines[0..] == c.lines;
    ThenAppends(f, F.Output([header], false), F.WriteLines(c.lines));
  }

  class PatchChunk {
    var lines: seq<PatchChunkLine>
    var srcPos: int
    var dstPos: int

    constructor (srcPos: int, dstPos: int)
      ensures lines == [] && Value() == F.Chunk(srcPos, dstPos, [])
    {
      lines := [];
      this.srcPos, this.dstPos := srcPos, dstPos;
    }

    function Value(): F.Chunk
      reads this, lines
    {
      F.Chunk(srcPos, dstPos, LineValues(lines))
    }

    method AddLine(line: PatchChunkLine)
      modifies this`lines
      ensures lines == old(lines) + [line]
      ensures Value() == F.AddLine(old(Value()), line.Value())
    {
      lines := lines + [line];
      AnotherLine(old(lines), line);
    }

    /** The very line objects of the source side, in order. */
    method Src() returns (src: seq<PatchChunkLine>)
      ensures LineValues(src) == F.SrcLines(Value().lines)
      ensures forall l :: l in src ==> l in lines
    {
      src := [];
      ghost var vs := LineValues(lines);
      assert vs[0..] == vs;
      for i := 0 to |lines|
        invariant LineValues(src) + F.SrcLines(vs[i..]) == F.SrcLines(vs)
        invariant forall l :: l in src ==> l in lines
      {
        NextSrc(vs, i, LineValues(src));
        if lines[i].Value().IsSrc() {
          AnotherLine(src, lines[i]);
          src := src + [lines[i]];
        }
      }
    }

    /** The very line objects of the destination side, in order. */
    method Dst() returns (dst: seq<PatchChunkLine>)
      ensures LineValues(dst) == F.DstLines(Value().lines)
      ensures forall l :: l in dst ==> l in lines
    {
      dst := [];
      ghost var vs := LineValues(lines);
      assert vs[0..] == vs;
      for i := 0 to |lines|
        invariant LineValues(dst) + F.DstLines(vs[i..]) == F.DstLines(vs)
        invariant forall l :: l in dst ==> l in lines
      {
        NextDst(vs, i, LineValues(dst));
        if lines[i].Value().IsDst() {
          AnotherLine(dst, lines[i]);
          dst := dst + [lines[i]];
        }
      }
    }

    method Write(f: File) returns (g: File, raised: bool)
      ensures g == f + F.WriteChunk(Value()).written
      ensures raised == F.WriteChunk(Value()).raised
    {
      hide F.Counts, F.SrcLines, F.DstLines;
      var src := Src();
      var dst := Dst();
      var header := "@@ -" + F.Counts(srcPos, |src|, " +" + F.Counts(dstPos, |dst|, " @@\n"));
      g := f + [header];
      ghost var v := Value();
      ghost var vs, all, fails := v.lines, f + F.WriteChunk(v).written, F.WriteChunk(v).raised;
      HeaderFirst(f, v, header);
      hide LinesPending, F.WriteChunk, F.WriteLines, F.WriteLine, LineValues;
      var i := 0;
      while i < |lines|
        invariant 0 <= i <= |lines| && LinesPending(g, vs, i, all, fails)
      {
        NextLine(g, vs, i, all, fails);
        g, raised := lines[i].Write(g);
        if raised {
          return;
        }
        i := i + 1;
      }
      LinesWritten(g, vs, all, fails);
      raised := false;
    }
  }

  function ChunkValues(cs: seq<PatchChunk>): (r: seq<F.Chunk>)
    reads cs, set c, k | c in cs && 0 <= k < |c.lines| :: c.lines[k]
    ensures |r| == |cs| && forall i :: 0 <= i < |cs| ==> r[i] == cs[i].Value()
  {
    seq(|cs|, i requires 0 <= i < |cs| reads cs, set c, k | c in cs && 0 <= k < |c.lines| :: c.lines[k] =>
      cs[i].Value())
  }

  lemma {:induction false} HeadersFirst(f: File, p: F.Patch, one: string, two: string)
    requires one == "--- " + p.src + "\n" && two == "+++ " + p.dst + "\n"
    ensures f + F.WritePatch(p).written == f + [one] + [two] + F.WriteChunks(p.chunks).written
    ensures F.WritePatch(p).raised == F.WriteChunks(p.chunks).raised
  {
    ThenAppends(f, F.WriteHeaders(p.src, p.dst), F.WriteChunks(p.chunks));
    assert f + F.WriteHeaders(p.src, p.dst).written == f + [one] + [two];
  }

  class Patch {
    var src: string
    var dst: string
    var chunks: seq<PatchChunk>

    constructor ()
      ensures chunks == [] && Value() == F.Patch("", "", [])
    {
      src, dst, chunks := "", "", [];
    }

    function Value(): F.Patch
      reads this, chunks, set c, k | c in chunks && 0 <= k < |c.lines| :: c.lines[k]
    {
      F.Patch(src, dst, ChunkValues(chunks))
    }

    method SetSrc(name: string)
      modifies this`src
      ensures src == name
      ensures Value() == old(Value()).(src := name)
    {
      src := name;
    }

    method SetDst(name: string)
      modifies this`dst
      ensures dst == name
      ensures Value() == old(Value()).(dst := name)
    {
      dst := name;
    }

    method AddChunk(chunk: PatchChunk)
      modifies this`chunks
      ensures chunks == old(chunks) + [chunk]
      ensures Value() == F.AddChunk(old(Value()), chunk.Value())
    {
      chunks := chunks + [chunk];
      assert ChunkValues(chunks) == old(ChunkValues(chunks)) + [chunk.Value()];
    }

    method WriteChunks(f: File) returns (g: File, raised: bool)
      ensures g == f + F.WriteChunks(ChunkValues(chunks)).written
      ensures raised == F.WriteChunks(ChunkValues(chunks)).raised
    {
      g, raised := f, false;
      ghost var vs := ChunkValues(chunks);
      ghost var all, fails := f + F.WriteChunks(vs).written, F.WriteChunks(vs).raised;
      assert vs[0..] == vs;
      assert ChunksPending(g, vs, 0, all, fails);
      hide ChunksPending, F.WriteChunks, F.WriteChunk, LineValues;
      var i := 0;
      while i < |chunks| && !raised
        invariant 0 <= i <= |chunks|
        invariant ChunkValues(chunks) == vs
        invariant if raised then g == all && fails else ChunksPending(g, vs, i, all, fails)
      {
        NextChunk(g, vs, i, all, fails);
        g, raised := chunks[i].Write(g);
        i := i + 1;
      }
      if !raised {
        ChunksWritten(g, vs, all, fails);
      }
    }

    /** Writes the two headers and the chunks; stops where a line has no side. */
    method Write(f: File) returns (g: File, raised: bool)
      ensures g == f + F.WritePatch(Value()).written
      ensures raised == F.WritePatch(Value()).raised
    {
      var one, two := "--- " + src + "\n", "+++ " + dst + "\n";
      HeadersFirst(f, Value(), one, two);
      hide F.WritePatch, F.WriteChunks, ChunkValues;
      g := f + [one];
      g := g + [two];
      g, raised := WriteChunks(g);
    }
  }

  // ---------- parse_patchset ----------

  /** No patch is listed twice and no chunk belongs to two places. */
  ghost predicate Separate(ps: seq<Patch>)
    reads ps`chunks
  {
    && (forall i, j :: 0 <= i < j < |ps| ==> ps[i] != ps[j])
    && (forall i, a, b :: 0 <= i < |ps| && 0 <= a < b < |ps[i].chunks| ==> ps[i].chunks[a] != ps[i].chunks[b])
    && (forall i, j, a, b ::
          0 <= i < j < |ps| && 0 <= a < |ps[i].chunks| && 0 <= b < |ps[j].chunks| ==>
            ps[i].chunks[a] != ps[j].chunks[b])
  }

  /** The object p holds v, when its chunks hold what cs says. */
  ghost predicate Holds(p: Patch, v: F.Patch, cs: map<PatchChunk, F.Chunk>)
    reads p
  {
    && p.src == v.src && p.dst == v.dst && |p.chunks| == |v.chunks|
    && forall a :: 0 <= a < |p.chunks| ==> p.chunks[a] in cs && cs[p.chunks[a]] == v.chunks[a]
  }

  ghost predicate AllHold(ps: seq<Patch>, vs: seq<F.Patch>, cs: map<PatchChunk, F.Chunk>)
    reads ps
  {
    |ps| == |vs| && forall i :: 0 <= i < |ps| ==> Holds(ps[i], vs[i], cs)
  }

  /** The variable current_chunk is the last chunk of the patch that holds the most recent one. */
  ghost predicate IsCurrent(ps: seq<Patch>, vs: seq<F.Patch>, chunk: PatchChunk?)
    reads ps`chunks
  {
    var k := F.ChunkHolder(vs);
    if k.None? then chunk == null
    else k.value < |ps| && ps[k.value].chunks != [] && chunk == ps[k.value].chunks[|ps[k.value].chunks| - 1]
  }

  predicate IsLast(ps: seq<Patch>, patch: Patch?) {
    patch == if ps == [] then null else ps[|ps| - 1]
  }

  /** The loop invariant of parse_patchset. */
  ghost predicate Inv(ps: seq<Patch>, patch: Patch?, chunk: PatchChunk?,
                      vs: seq<F.Patch>, cs: map<PatchChunk, F.Chunk>)
    reads ps
  {
    Separate(ps) && AllHold(ps, vs, cs) && IsCurrent(ps, vs, chunk) && IsLast(ps, patch)
  }

  lemma {:induction false} HolderKept(vs: seq<F.Patch>, ws: seq<F.Patch>)
    requires |vs| == |ws| && forall i :: 0 <= i < |vs| ==> (vs[i].chunks == [] <==> ws[i].chunks == [])
    ensures F.ChunkHolder(ws) == F.ChunkHolder(vs)
    decreases |vs|
  {
    if vs != [] {
      HolderKept(vs[..|vs| - 1], ws[..|ws| - 1]);
    }
  }

  lemma {:induction false} StartedSeparate(ps: seq<Patch>, next: Patch)
    requires Separate(ps) && next !in ps && next.chunks == []
    ensures Separate(ps + [next])
  {
    var qs := ps + [next];
    assert forall i :: 0 <= i < |ps| ==> qs[i] == ps[i];
  }

  lemma {:induction false} StartedHeld(ps: seq<Patch>, vs: seq<F.Patch>, cs: map<PatchChunk, F.Chunk>, next: Patch)
    requires AllHold(ps, vs, cs) && next.chunks == [] && next.dst == ""
    ensures AllHold(ps + [next], vs + [F.Patch(next.src, "", [])], cs)
  {
    var v := F.Patch(next.src, "", []);
    assert Holds(next, v, cs);
    forall i | 0 <= i < |ps| + 1
      ensures Holds((ps + [next])[i], (vs + [v])[i], cs)
    {
      if i < |ps| {
        assert Holds(ps[i], vs[i], cs);
      }
    }
  }

  lemma {:induction false} StartedCurrent(ps: seq<Patch>, vs: seq<F.Patch>, chunk: PatchChunk?, next: Patch, v: F.Patch)
    requires |ps| == |vs| && IsCurrent(ps, vs, chunk) && v.chunks == []
    ensures IsCurrent(ps + [next], vs + [v], chunk)
  {
    assert (vs + [v])[..|vs|] == vs;
  }

  lemma {:induction false} PatchStarted(ps: seq<Patch>, patch: Patch?, chunk: PatchChunk?,
                                        vs: seq<F.Patch>, cs: map<PatchChunk, F.Chunk>, next: Patch)
    requires Inv(ps, patch, chunk, vs, cs)
    requires next !in ps && next.chunks == [] && next.dst == ""
    ensures Inv(ps + [next], next, chunk, vs + [F.Patch(next.src, "", [])], cs)
  {
    hide Separate, Holds, IsCurrent;
    StartedSeparate(ps, next);
    StartedHeld(ps, vs, cs, next);
    StartedCurrent(ps, vs, chunk, next, F.Patch(next.src, "", []));
    hide AllHold;
  }

  lemma {:induction false} LineAdded(ps: seq<Patch>, patch: Patch?, chunk: PatchChunk,
                                     vs: seq<F.Patch>, cs: map<PatchChunk, F.Chunk>, l: F.Line)
    requires Inv(ps, patch, chunk, vs, cs)
    ensures F.Step(vs, F.Text(l)).Ok? && chunk in cs
    ensures Inv(ps, patch, chunk, F.Step(vs, F.Text(l)).value, cs[chunk := F.AddLine(cs[chunk], l)])
  {
    var k := F.ChunkHolder(vs).value;
    var ws := F.Step(vs, F.Text(l)).value;
    assert Holds(ps[k], vs[k], cs);
    HolderKept(vs, ws);
    forall i | 0 <= i < |ps|
      ensures Holds(ps[i], ws[i], cs[chunk := F.AddLine(cs[chunk], l)])
    {
      assert Holds(ps[i], vs[i], cs);
    }
  }

  ghost predicate Current(cs: map<PatchChunk, F.Chunk>)
    reads cs.Keys, set c, k | c in cs && 0 <= k < |c.lines| :: c.lines[k]
  {
    forall c :: c in cs ==> c.Value() == cs[c]
  }

  method StartPatch(ps: seq<Patch>, patch: Patch?, chunk: PatchChunk?,
                    ghost vs: seq<F.Patch>, ghost cs: map<PatchChunk, F.Chunk>, name: string)
    returns (next: Patch)
    requires Inv(ps, patch, chunk, vs, cs) && Current(cs)
    ensures fresh(next) && Current(cs) && F.Step(vs, F.SrcFile(name)).Ok?
    ensures Inv(ps + [next], next, chunk, F.Step(vs, F.SrcFile(name)).value, cs)
  {
    next := new Patch();
    next.SetSrc(name);
    hide Inv, Patch.Value, LineValues, ChunkValues, Current;
    PatchStarted(ps, patch, chunk, vs, cs, next);
  }

  method NameDst(ps: seq<Patch>, patch: Patch, ghost chunk: PatchChunk?,
                 ghost vs: seq<F.Patch>, ghost cs: map<PatchChunk, F.Chunk>, name: string)
    requires Inv(ps, patch, chunk, vs, cs) && Current(cs)
    modifies patch`dst
    ensures Current(cs) && F.Step(vs, F.DstFile(name)).Ok?
    ensures Inv(ps, patch, chunk, F.Step(vs, F.DstFile(name)).value, cs)
  {
    hide F.ChunkHolder, LineValues, ChunkValues, Patch.Value, Current, Separate, IsCurrent, Holds;
    hide SeparateLists, Among, HoldsList, ChunkLists;
    HeldLists(ps, vs, cs);
    CurrentKept(ps, vs, chunk, name);
    patch.SetDst(name);
    DstHeld(ps, vs, cs, name);
  }

  lemma {:induction false} CurrentKept(ps: seq<Patch>, vs: seq<F.Patch>, chunk: PatchChunk?, name: string)
    requires IsCurrent(ps, vs, chunk) && vs != []
    ensures IsCurrent(ps, vs[|vs| - 1 := vs[|vs| - 1].(dst := name)], chunk)
  {
    HolderKept(vs, vs[|vs| - 1 := vs[|vs| - 1].(dst := name)]);
  }

  /** Only the destination of the last patch differs from what was held. */
  lemma {:induction false} DstHeld(ps: seq<Patch>, vs: seq<F.Patch>, cs: map<PatchChunk, F.Chunk>, name: string)
    requires |ps| == |vs| > 0 && ps[|ps| - 1].dst == name
    requires forall i :: 0 <= i < |ps| ==>
      ps[i].src == vs[i].src && (i + 1 < |ps| ==> ps[i].dst == vs[i].dst) && HoldsList(ChunkLists(ps)[i], vs[i], cs)
    ensures AllHold(ps, vs[|vs| - 1 := vs[|vs| - 1].(dst := name)], cs)
  {
    forall i | 0 <= i < |ps|
      ensures Holds(ps[i], vs[|vs| - 1 := vs[|vs| - 1].(dst := name)][i], cs)
    {
      assert ChunkLists(ps)[i] == ps[i].chunks;
    }
  }

  ghost function ChunkLists(ps: seq<Patch>): (r: seq<seq<PatchChunk>>)
    reads ps`chunks
    ensures |r| == |ps| && forall i :: 0 <= i < |r| ==> r[i] == ps[i].chunks
  {
    if ps == [] then [] else ChunkLists(ps[..|ps| - 1]) + [ps[|ps| - 1].chunks]
  }

  ghost function WithChunk(lists: seq<seq<PatchChunk>>, next: PatchChunk): seq<seq<PatchChunk>>
    requires lists != []
  {
    lists[|lists| - 1 := lists[|lists| - 1] + [next]]
  }

  ghost predicate SeparateLists(lists: seq<seq<PatchChunk>>) {
    && (forall i, a, b :: 0 <= i < |lists| && 0 <= a < b < |lists[i]| ==> lists[i][a] != lists[i][b])
    && (forall i, j, a, b ::
          0 <= i < j < |lists| && 0 <= a < |lists[i]| && 0 <= b < |lists[j]| ==> lists[i][a] != lists[j][b])
  }

  /** All chunks of the lists are among those of cs. */
  ghost predicate Among(lists: seq<seq<PatchChunk>>, cs: map<PatchChunk, F.Chunk>) {
    forall i, a :: 0 <= i < |lists| && 0 <= a < |lists[i]| ==> lists[i][a] in cs
  }

  /** The list's chunks hold what cs says. */
  ghost predicate HoldsList(list: seq<PatchChunk>, v: F.Patch, cs: map<PatchChunk, F.Chunk>) {
    |list| == |v.chunks| && forall a :: 0 <= a < |list| ==> list[a] in cs && cs[list[a]] == v.chunks[a]
  }

  lemma {:induction false} HeldLists(ps: seq<Patch>, vs: seq<F.Patch>, cs: map<PatchChunk, F.Chunk>)
    requires Separate(ps) && AllHold(ps, vs, cs)
    ensures forall i, j :: 0 <= i < j < |ps| ==> ps[i] != ps[j]
    ensures SeparateLists(ChunkLists(ps)) && Among(ChunkLists(ps), cs)
    ensures forall i :: 0 <= i < |ps| ==>
      ps[i].src == vs[i].src && ps[i].dst == vs[i].dst && HoldsList(ChunkLists(ps)[i], vs[i], cs)
  {
    forall i | 0 <= i < |ps|
      ensures Holds(ps[i], vs[i], cs)
    {}
  }

  lemma {:induction false} ChunkSeparate(ps: seq<Patch>, before: seq<seq<PatchChunk>>,
                                         cs: map<PatchChunk, F.Chunk>, next: PatchChunk)
    requires forall i, j :: 0 <= i < j < |ps| ==> ps[i] != ps[j]
    requires before != [] && SeparateLists(before) && Among(before, cs) && next !in cs
    requires ChunkLists(ps) == WithChunk(before, next)
    ensures Separate(ps)
  {
    assert forall i :: 0 <= i < |ps| ==> ps[i].chunks == WithChunk(before, next)[i];
  }

  lemma {:induction false} ChunkHeld(ps: seq<Patch>, before: seq<seq<PatchChunk>>, vs: seq<F.Patch>,
                                     cs: map<PatchChunk, F.Chunk>, next: PatchChunk, v: F.Chunk)
    requires |ps| == |vs| == |before| > 0 && next !in cs && ChunkLists(ps) == WithChunk(before, next)
    requires forall i :: 0 <= i < |ps| ==>
      ps[i].src == vs[i].src && ps[i].dst == vs[i].dst && HoldsList(before[i], vs[i], cs)
    ensures AllHold(ps, vs[|vs| - 1 := F.AddChunk(vs[|vs| - 1], v)], cs[next := v])
  {
    forall i | 0 <= i < |ps|
      ensures Holds(ps[i], vs[|vs| - 1 := F.AddChunk(vs[|vs| - 1], v)][i], cs[next := v])
    {
      assert ps[i].chunks == WithChunk(before, next)[i];
    }
  }

  lemma {:induction false} ChunkCurrent(ps: seq<Patch>, before: seq<seq<PatchChunk>>, vs: seq<F.Patch>,
                                        next: PatchChunk, v: F.Chunk)
    requires |ps| == |vs| == |before| > 0 && ChunkLists(ps) == WithChunk(before, next)
    ensures IsCurrent(ps, vs[|vs| - 1 := F.AddChunk(vs[|vs| - 1], v)], next)
  {
    assert ps[|ps| - 1].chunks == WithChunk(before, next)[|ps| - 1];
  }

  method AddChunk(ps: seq<Patch>, patch: Patch, ghost chunk: PatchChunk?,
                  ghost vs: seq<F.Patch>, ghost cs: map<PatchChunk, F.Chunk>, next: PatchChunk, ghost v: F.Chunk)
    requires Inv(ps, patch, chunk, vs, cs) && next !in cs
    modifies patch`chunks
    ensures vs != []
    ensures Inv(ps, patch, next, vs[|vs| - 1 := F.AddChunk(vs[|vs| - 1], v)], cs[next := v])
  {
    ghost var before := ChunkLists(ps);
    HeldLists(ps, vs, cs);
    patch.AddChunk(next);
    hide Separate, IsCurrent, Holds, F.AddChunk, LineValues, ChunkValues, Patch.Value;
    assert ChunkLists(ps) == WithChunk(before, next);
    ChunkSeparate(ps, before, cs, next);
    ChunkHeld(ps, before, vs, cs, next, v);
    ChunkCurrent(ps, before, vs, next, v);
  }

  method StartChunk(ps: seq<Patch>, patch: Patch, ghost chunk: PatchChunk?,
                    ghost vs: seq<F.Patch>, ghost cs: map<PatchChunk, F.Chunk>, at: F.Position)
    returns (next: PatchChunk)
    requires Inv(ps, patch, chunk, vs, cs) && Current(cs)
    modifies patch`chunks
    ensures fresh(next) && F.Step(vs, F.ChunkStart(at)).Ok?
    ensures Current(cs[next := F.Chunk(at.srcPos, at.dstPos, [])])
    ensures Inv(ps, patch, next, F.Step(vs, F.ChunkStart(at)).value, cs[next := F.Chunk(at.srcPos, at.dstPos, [])])
  {
    ghost var v := F.Chunk(at.srcPos, at.dstPos, []);
    next := new PatchChunk(at.srcPos, at.dstPos);
    assert next !in cs && Current(cs[next := v]);
    hide Inv, F.ChunkHolder, F.AddChunk, LineValues, ChunkValues;
    AddChunk(ps, patch, chunk, vs, cs, next, v);
  }

  method ExtendChunk(ps: seq<Patch>, ghost patch: Patch?, chunk: PatchChunk,
                     ghost vs: seq<F.Patch>, ghost cs: map<PatchChunk, F.Chunk>, l: PatchChunkLine)
    requires Inv(ps, patch, chunk, vs, cs) && Current(cs)
    modifies chunk`lines
    ensures F.Step(vs, F.Text(l.Value())).Ok? && chunk in cs
    ensures Inv(ps, patch, chunk, F.Step(vs, F.Text(l.Value())).value, cs[chunk := F.AddLine(cs[chunk], l.Value())])
    ensures Current(cs[chunk := F.AddLine(cs[chunk], l.Value())])
  {
    LineAdded(ps, patch, chunk, vs, cs, l.Value());
    chunk.AddLine(l);
  }

  lemma {:induction false} HoldsShows(p: Patch, v: F.Patch, cs: map<PatchChunk, F.Chunk>)
    requires Holds(p, v, cs) && Current(cs)
    ensures p.Value() == v
  {
    assert ChunkValues(p.chunks) == v.chunks;
  }

  /** Tries the six patterns in turn. */
  method Scan(line: string) returns (item: F.Item)
    ensures item == F.Classify(line)
    ensures item.Text? ==> item.line.kind != F.Unset
  {
    var m := F.Match("--- ", line);
    if m.Some? {
      return F.SrcFile(m.value);
    }
    m := F.Match("+++ ", line);
    if m.Some? {
      return F.DstFile(m.value);
    }
    var start := F.MatchChunkStart(line);
    if start.Some? {
      return F.ChunkStart(start.value);
    }
    m := F.Match("-", line);
    if m.Some? {
      return F.Text(F.Line(F.Src, m.value));
    }
    m := F.Match("+", line);
    if m.Some? {
      return F.Text(F.Line(F.Dst, m.value));
    }
    m := F.Match(" ", line);
    if m.Some? {
      return F.Text(F.Line(F.Both, m.value));
    }
    return F.Junk;
  }

  method NewLine(v: F.Line) returns (l: PatchChunkLine)
    requires v.kind != F.Unset
    ensures fresh(l) && l.Value() == v
  {
    l := new PatchChunkLine();
    match v.kind {
      case Src => l.SetSrc(v.text);
      case Dst => l.SetDst(v.text);
      case Both => l.SetBoth(v.text);
    }
  }

  method TakeText(ps: seq<Patch>, ghost patch: Patch?, chunk: PatchChunk,
                  ghost vs: seq<F.Patch>, ghost cs: map<PatchChunk, F.Chunk>, v: F.Line)
    returns (ghost ds: map<PatchChunk, F.Chunk>)
    requires Inv(ps, patch, chunk, vs, cs) && Current(cs) && v.kind != F.Unset
    modifies chunk`lines
    ensures F.Step(vs, F.Text(v)).Ok?
    ensures Inv(ps, patch, chunk, F.Step(vs, F.Text(v)).value, ds) && Current(ds)
  {
    hide Inv, Current, F.Step, F.AddLine;
    var l := NewLine(v);
    ExtendChunk(ps, patch, chunk, vs, cs, l);
    ds := cs[chunk := F.AddLine(cs[chunk], v)];
  }

  lemma {:induction false} NullWhen(ps: seq<Patch>, patch: Patch?, chunk: PatchChunk?,
                                    vs: seq<F.Patch>, cs: map<PatchChunk, F.Chunk>)
    requires Inv(ps, patch, chunk, vs, cs)
    ensures patch == null <==> vs == []
    ensures chunk == null <==> F.ChunkHolder(vs).None?
  {
    hide Separate, Holds;
  }

  /** What the loop does with one line. */
  method TakeItem(item: F.Item, ps: seq<Patch>, patch: Patch?, chunk: PatchChunk?,
                  ghost vs: seq<F.Patch>, ghost cs: map<PatchChunk, F.Chunk>)
    returns (failure: C.Option<F.Failure>, qs: seq<Patch>, nextPatch: Patch?, nextChunk: PatchChunk?,
             ghost ds: map<PatchChunk, F.Chunk>)
    requires Inv(ps, patch, chunk, vs, cs) && Current(cs)
    requires item.Text? ==> item.line.kind != F.Unset
    modifies patch, chunk
    ensures failure.Some? ==> F.Step(vs, item) == F.Err(failure.value)
    ensures failure.None? ==> F.Step(vs, item).Ok?
    ensures failure.None? ==> Inv(qs, nextPatch, nextChunk, F.Step(vs, item).value, ds) && Current(ds)
    ensures nextPatch == patch || fresh(nextPatch)
    ensures nextChunk == chunk || fresh(nextChunk)
  {
    failure, qs, nextPatch, nextChunk, ds := C.None, ps, patch, chunk, cs;
    NullWhen(ps, patch, chunk, vs, cs);
    hide Inv, Current, F.ChunkHolder, F.AddLineToPatch, F.AddChunk, LineValues, ChunkValues;
    match item {
      case SrcFile(name) =>
        nextPatch := StartPatch(ps, patch, chunk, vs, cs, name);
        qs := ps + [nextPatch];
      case DstFile(name) =>
        if patch == null {
          failure := C.Some(F.AttributeError);
        } else {
          NameDst(ps, patch, chunk, vs, cs, name);
        }
      case ChunkStart(at) =>
        if patch == null {
          failure := C.Some(F.AttributeError);
        } else {
          nextChunk := StartChunk(ps, patch, chunk, vs, cs, at);
          ds := cs[nextChunk := F.Chunk(at.srcPos, at.dstPos, [])];
        }
      case Text(v) =>
        if chunk == null {
          failure := C.Some(F.UnboundLocalError);
        } else {
          ds := TakeText(ps, patch, chunk, vs, cs, v);
        }
      case Junk =>
        failure := C.Some(F.InvalidLine);
    }
  }

  method ParsePatchset(generator: seq<string>) returns (r: F.Result<seq<Patch>>)
    ensures r.Ok? <==> F.Parse(generator).Ok?
    ensures r.Ok? ==> Separate(r.value) && |r.value| == |F.Parse(generator).value|
    ensures r.Ok? ==> forall i :: 0 <= i < |r.value| ==> r.value[i].Value() == F.Parse(generator).value[i]
    ensures r.Err? ==> r.error == F.Parse(generator).error
  {
    var patchset: seq<Patch> := [];
    var currentPatch: Patch? := null;
    var currentChunk: PatchChunk? := null;
    ghost var vs: seq<F.Patch> := [];
    ghost var cs: map<PatchChunk, F.Chunk> := map[];
    assert generator[0..] == generator;
    for i := 0 to |generator|
      invariant F.ParseFrom(vs, generator[i..]) == F.Parse(generator)
      invariant Inv(patchset, currentPatch, currentChunk, vs, cs) && Current(cs)
      invariant currentPatch != null ==> fresh(currentPatch)
      invariant currentChunk != null ==> fresh(currentChunk)
    {
      var failure;
      assert generator[i..][1..] == generator[i + 1..];
      var item := Scan(generator[i]);
      ghost var next := F.Step(vs, item);
      failure, patchset, currentPatch, currentChunk, cs :=
        TakeItem(item, patchset, currentPatch, currentChunk, vs, cs);
      if failure.Some? {
        return F.Err(failure.value);
      }
      vs := next.value;
    }
    assert generator[|generator|..] == [];
    forall i | 0 <= i < |patchset|
      ensures patchset[i].Value() == vs[i]
    {
      HoldsShows(patchset[i], vs[i], cs);
    }
    return F.Ok(patchset);
  }
}
