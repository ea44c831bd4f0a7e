/**
 The stream loops of ns-3/BRITE/Parser.cc and the seed arrays of ns-3/BRITE/Brite.cc, step by
 step, against the functions of SeedTokens and SeedFile.
 */
module SeedClasses {
  import opened Common
  import opened Decimals
  import opened SeedTokens
  import opened SeedFile

  /** The seeds already read, in front of those still to come. */
  ghost function Prepend(done: seq<Seed>, r: Parsed<seq<Seed>>): Parsed<seq<Seed>> {
    match r
    case Parsed(seeds, s) => Parsed(done + seeds, s)
    case Failed(f) => Failed(f)
  }

  lemma {:induction false} PrependSeed(done: seq<Seed>, s: Stream, i: nat)
    requires i < |NAMES|
    ensures ReadSeed(s, NAMES[i]).Failed? ==>
      Prepend(done, ReadSeeds(s, NAMES[i..])) == Failed(ReadSeed(s, NAMES[i]).failure)
    ensures ReadSeed(s, NAMES[i]).Parsed? ==>
      Prepend(done, ReadSeeds(s, NAMES[i..]))
      == Prepend(done + [ReadSeed(s, NAMES[i]).value], ReadSeeds(ReadSeed(s, NAMES[i]).next, NAMES[i + 1..]))
  {
    var names := NAMES[i..];
    assert names[0] == NAMES[i] && names[1..] == NAMES[i + 1..];
    PrependFirst(done, s, names);
  }

  lemma {:induction false} PrependFirst(done: seq<Seed>, s: Stream, names: seq<string>)
    requires names != []
    ensures ReadSeed(s, names[0]).Failed? ==>
      Prepend(done, ReadSeeds(s, names)) == Failed(ReadSeed(s, names[0]).failure)
    ensures ReadSeed(s, names[0]).Parsed? ==>
      Prepend(done, ReadSeeds(s, names))
      == Prepend(done + [ReadSeed(s, names[0]).value], ReadSeeds(ReadSeed(s, names[0]).next, names[1..]))
  {
    if ReadSeed(s, names[0]).Parsed? {
      var seed, u := ReadSeed(s, names[0]).value, ReadSeed(s, names[0]).next;
      if ReadSeeds(u, names[1..]).Parsed? {
        var seeds := ReadSeeds(u, names[1..]).value;
        assert done + ([seed] + seeds) == (done + [seed]) + seeds;
      }
    }
  }

  /** What a stream still holds once ch has been taken from it. */
  ghost function Pending(ch: char, s: Stream): string {
    if s.eof then "" else [ch] + s.rest
  }

  /** An ifstream with its flags; a failed get leaves its argument alone. */
  class InFile {
    var rest: string
    var eof: bool
    var fail: bool

    constructor (text: string)
      ensures rest == text && !eof && !fail
    {
      rest, eof, fail := text, false, false;
    }

    /** No call has failed other than at the end of the file. */
    ghost predicate Usable()
      reads this
    {
      (eof ==> rest == "") && (fail ==> eof)
    }

    function State(): Stream
      reads this
    {
      Stream(rest, eof)
    }

    method Get(ch: char) returns (c: char)
      requires Usable()
      modifies this
      ensures Usable() && Pending(c, State()) == old(rest)
      ensures eof <==> old(rest) == ""
      ensures eof ==> c == ch
    {
      if eof || fail {
        fail := true;
        c := ch;
      } else if rest == "" {
        eof, fail := true, true;
        c := ch;
      } else {
        c, rest := rest[0], rest[1..];
      }
    }

    /** Reads and drops a line of fewer than MAX_LINE characters; a longer one fails the stream. */
    method GetLine()
      requires Usable() && !eof
      modifies this
      ensures
        var n := LineLength(old(rest));
        if n >= MAX_LINE then fail && !eof
        else if n == |old(rest)| then eof && rest == "" && Usable()
        else State() == Stream(old(rest)[n + 1..], false) && Usable()
    {
      var n := LineLength(rest);
      if n >= MAX_LINE {
        fail, rest := true, rest[MAX_LINE - 1..];
      } else if n == |rest| {
        eof, fail, rest := true, n == 0, "";
      } else {
        rest := rest[n + 1..];
      }
    }
  }

  ghost function Skip(s: string): string { s[Blanks(s)..] }

  /** The stream after the token that t starts with and the delimiter that ends it. */
  ghost function PastWord(t: string): Stream {
    var n := WordLength(t);
    if n == |t| then Stream("", true) else Stream(t[n + 1..], false)
  }

  class Parse {
    const infile: InFile

    constructor (text: string)
      ensures fresh(infile) && infile.Usable() && infile.State() == Stream(text, false)
    {
      infile := new InFile(text);
    }

    /** Skips delimiters from ch on; the second loop of GetNextToken. */
    method SkipDelims(ch: char) returns (c: char)
      requires infile.Usable()
      modifies infile
      ensures infile.Usable()
      ensures Pending(c, infile.State()) == Skip(Pending(ch, old(infile.State())))
    {
      c := ch;
      while IsDelim(c) && !infile.eof
        invariant infile.Usable()
        invariant Skip(Pending(c, infile.State())) == Skip(Pending(ch, old(infile.State())))
        decreases |infile.rest|, !infile.eof
      {
        c := infile.Get(c);
      }
    }

    /** Reads the token that starts with ch; the third loop of GetNextToken. */
    method TakeWord(ch: char) returns (toks: string)
      requires infile.Usable() && !infile.eof && !IsDelim(ch)
      modifies infile
      ensures infile.Usable()
      ensures
        var t := [ch] + old(infile.rest);
        toks == t[..WordLength(t)] && infile.State() == PastWord(t)
    {
      ghost var t := [ch] + infile.rest;
      var c := ch;
      toks := "";
      while !IsDelim(c) && !infile.eof
        invariant infile.Usable()
        invariant NoDelim(toks) && toks + Pending(c, infile.State()) == t
        decreases |infile.rest|, !infile.eof
      {
        assert toks + Pending(c, infile.State()) == (toks + [c]) + infile.rest;
        toks := toks + [c];
        c := infile.Get(c);
      }
      WordLengthOf(toks, Pending(c, infile.State()));
      assert t[..|toks|] == toks;
      if !infile.eof {
        assert t[|toks| + 1..] == infile.rest;
      }
    }

    /**
     j is the length of the token found, 0 at the end of the file. When a comment fails the
     stream the original loops for ever; here that is the result hangs.
     */
    method GetNextToken() returns (j: nat, toks: string, hangs: bool)
      requires infile.Usable()
      modifies infile
      ensures
        var (found, after) := Next(old(infile.State()));
        && hangs == found.Hang? && j == |toks|
        && (found.Token? ==> toks == found.text && infile.State() == after)
        && (found.End? ==> toks == "" && infile.State() == after)
      ensures !hangs ==> infile.Usable()
    {
      var ch: char := *;
      j, toks, hangs := 0, "", false;
      while !infile.eof
        invariant infile.Usable()
        invariant Next(infile.State()) == Next(old(infile.State()))
        decreases |infile.rest|, !infile.eof
      {
        ghost var s := infile.rest;
        ch := infile.Get(ch);
        ch := SkipDelims(ch);
        assert Pending(ch, infile.State()) == Skip(s);
        if infile.eof {
          return;
        }
        assert Next(Stream(s, false)) == NextAt([ch] + infile.rest);
        if IsComment(ch) {
          infile.GetLine();
          if infile.fail && !infile.eof {
            hangs := true;
            return;
          }
          continue;
        }
        toks := TakeWord(ch);
        j := |toks|;
        return;
      }
    }

    /** The next token as one number of a seed. */
    method ParseValue() returns (v: Short, error: Option<Failure>)
      requires infile.Usable()
      modifies infile
      ensures ReadValue(old(infile.State())).Parsed? ==>
        error.None? && ReadValue(old(infile.State())) == Parsed(v, infile.State()) && infile.Usable()
      ensures ReadValue(old(infile.State())).Failed? ==>
        error == Some(ReadValue(old(infile.State())).failure)
    {
      var i, toks, hangs := GetNextToken();
      if hangs {
        return 0, Some(Hangs);
      }
      if i == 0 {
        return 0, Some(Expected("Seed value", toks));
      }
      return AsShort(Atoi(toks)), None;
    }

    method ParseSeed(f: string, seed: array<Short>) returns (error: Option<Failure>)
      requires infile.Usable() && seed.Length == 3 && (seed as object) != infile
      modifies infile, seed
      ensures ReadSeed(old(infile.State()), f).Parsed? ==>
        error.None? && ReadSeed(old(infile.State()), f) == Parsed(seed[..], infile.State()) && infile.Usable()
      ensures ReadSeed(old(infile.State()), f).Failed? ==>
        error == Some(ReadSeed(old(infile.State()), f).failure)
    {
      var i, toks, hangs := GetNextToken();
      if hangs {
        return Some(Hangs);
      }
      if i == 0 || toks != f {
        return Some(Expected(f, toks));
      }
      ghost var s1 := infile.State();
      seed[0], error := ParseValue();
      if error.Some? {
        return;
      }
      ghost var s2 := infile.State();
      seed[1], error := ParseValue();
      if error.Some? {
        return;
      }
      ghost var s3 := infile.State();
      seed[2], error := ParseValue();
      if error.Some? {
        return;
      }
      ThreeValues(s1, s2, s3, infile.State(), seed[..]);
    }

    /** ParseSeed, as the i-th step of reading all seeds. */
    method ParseNext(f: string, seed: array<Short>, ghost all: Parsed<seq<Seed>>, ghost i: nat, ghost done: seq<Seed>)
      returns (error: Option<Failure>)
      requires infile.Usable() && seed.Length == 3 && (seed as object) != infile
      requires i < |NAMES| && f == NAMES[i]
      requires Prepend(done, ReadSeeds(infile.State(), NAMES[i..])) == all
      modifies infile, seed
      ensures error.Some? ==> all == Failed(error.value)
      ensures error.None? ==>
        infile.Usable() && Prepend(done + [seed[..]], ReadSeeds(infile.State(), NAMES[i + 1..])) == all
    {
      PrependSeed(done, infile.State(), i);
      error := ParseSeed(f, seed);
    }
  }

  /** The static seed arrays of the class Model. */
  class Model {
    const places: array<Short>
    const connect: array<Short>
    const edgeConn: array<Short>
    const grouping: array<Short>
    const assignment: array<Short>
    const bandwidth: array<Short>

    constructor ()
      ensures Valid() && fresh(Arrays())
    {
      places := new Short[3](_ => 0);
      connect := new Short[3](_ => 0);
      edgeConn := new Short[3](_ => 0);
      grouping := new Short[3](_ => 0);
      assignment := new Short[3](_ => 0);
      bandwidth := new Short[3](_ => 0);
    }

    ghost function Arrays(): set<object> {
      {places, connect, edgeConn, grouping, assignment, bandwidth}
    }

    ghost predicate Valid() {
      && places.Length == connect.Length == edgeConn.Length == 3
      && grouping.Length == assignment.Length == bandwidth.Length == 3
      && places != connect && places != edgeConn && places != grouping && places != assignment && places != bandwidth
      && connect != edgeConn && connect != grouping && connect != assignment && connect != bandwidth
      && edgeConn != grouping && edgeConn != assignment && edgeConn != bandwidth
      && grouping != assignment && grouping != bandwidth && assignment != bandwidth
    }

    /** Fills the six arrays from a file; an error ends the program. */
    method InitSeeds(file: string) returns (error: Option<Failure>)
      requires Valid()
      modifies places, connect, edgeConn, grouping, assignment, bandwidth
      ensures error.Some? ==> ReadSeeds(Stream(file, false), NAMES) == Failed(error.value)
      ensures error.None? ==>
        ReadSeeds(Stream(file, false), NAMES).Parsed? && ReadSeeds(Stream(file, false), NAMES).value
        == [places[..], connect[..], edgeConn[..], grouping[..], assignment[..], bandwidth[..]]
    {
      hide ReadSeeds, ReadSeed, Prepend;
      var p := new Parse(file);
      ghost var all := ReadSeeds(Stream(file, false), NAMES);
      ghost var done: seq<Seed> := [];
      PrependNothing(all);
      assert NAMES[0..] == NAMES;
      error := p.ParseNext("PLACES", places, all, 0, done);
      if error.Some? {
        return;
      }
      done := done + [places[..]];
      error := p.ParseNext("CONNECT", connect, all, 1, done);
      if error.Some? {
        return;
      }
      done := done + [connect[..]];
      error := p.ParseNext("EDGE_CONN", edgeConn, all, 2, done);
      if error.Some? {
        return;
      }
      done := done + [edgeConn[..]];
      error := p.ParseNext("GROUPING", grouping, all, 3, done);
      if error.Some? {
        return;
      }
      done := done + [grouping[..]];
      error := p.ParseNext("ASSIGNMENT", assignment, all, 4, done);
      if error.Some? {
        return;
      }
      done := done + [assignment[..]];
      error := p.ParseNext("BANDWIDTH", bandwidth, all, 5, done);
      if error.Some? {
        return;
      }
      done := done + [bandwidth[..]];
      AllRead(all, done, p.infile.State());
    }

    /** Writes one line for each array. */
    method OutputSeeds() returns (file: string)
      requires Valid()
      ensures file
           == SeedText(NAMES, [places[..], connect[..], edgeConn[..], grouping[..], assignment[..], bandwidth[..]])
    {
      hide SeedText, SeedLine;
      SeedFileText([places[..], connect[..], edgeConn[..], grouping[..], assignment[..], bandwidth[..]]);
      file := "";
      file := file + SeedLine("PLACES", places[..]);
      file := file + SeedLine("CONNECT", connect[..]);
      file := file + SeedLine("EDGE_CONN", edgeConn[..]);
      file := file + SeedLine("GROUPING", grouping[..]);
      file := file + SeedLine("ASSIGNMENT", assignment[..]);
      file := file + SeedLine("BANDWIDTH", bandwidth[..]);
      SixLines(SeedLine("PLACES", places[..]), SeedLine("CONNECT", connect[..]), SeedLine("EDGE_CONN", edgeConn[..]),
               SeedLine("GROUPING", grouping[..]), SeedLine("ASSIGNMENT", assignment[..]),
               SeedLine("BANDWIDTH", bandwidth[..]));
    }
  }

  lemma {:induction false} SixLines(a: string, b: string, c: string, d: string, e: string, f: string)
    ensures "" + a + b + c + d + e + f == a + (b + (c + (d + (e + (f + "")))))
  {}

  lemma {:induction false} AllRead(all: Parsed<seq<Seed>>, done: seq<Seed>, s: Stream)
    requires Prepend(done, ReadSeeds(s, NAMES[6..])) == all
    ensures all == Parsed(done, s)
  {
    assert NAMES[6..] == [] && done + [] == done;
  }

  lemma {:induction false} PrependNothing(r: Parsed<seq<Seed>>)
    ensures Prepend([], r) == r
  {
    assert r.Parsed? ==> [] + r.value == r.value;
  }
}
