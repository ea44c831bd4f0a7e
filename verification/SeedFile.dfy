/**
 The seed file of BRITE: the reader of ns-3/BRITE/Parser.cc and the six seeds that
 ns-3/BRITE/Brite.cc reads and writes.
 */
module SeedFile {
  import opened Common
  import opened Decimals
  import opened SeedTokens

  // ---------- Values ----------

  /** unsigned short int. */
  type Short = x: int | 0 <= x < 65536

  function AsShort(n: int): Short { n % 65536 }

  type Seed = seq<Short>

  const NAMES: seq<string> := ["PLACES", "CONNECT", "EDGE_CONN", "GROUPING", "ASSIGNMENT", "BANDWIDTH"]

  predicate IsSpace(c: char): (r: bool)
    ensures r <==> c in [' ', '\t', '\n', 11 as char, 12 as char, '\r']
  {
    c == ' ' || 9 <= c as int <= 13
  }

  /** The function atoi, without its overflow. */
  function Atoi(s: string): int {
    if s != "" && IsSpace(s[0]) then Atoi(s[1..])
    else if s != "" && s[0] == '-' then 0 - ReadNat(s[1..][..DigitRun(s[1..])])
    else if s != "" && s[0] == '+' then ReadNat(s[1..][..DigitRun(s[1..])])
    else ReadNat(s[..DigitRun(s)])
  }

  /** The message of ParseError, which ends the program; or a call that never returns. */
  datatype Failure = Expected(what: string, got: string) | Hangs

  datatype Parsed<T> = Parsed(value: T, next: Stream) | Failed(failure: Failure)

  function ReadName(s: Stream, name: string): Parsed<string> {
    match Next(s)
    case (Token(t), u) => if t == name then Parsed(t, u) else Failed(Expected(name, t))
    case (End, _) => Failed(Expected(name, ""))
    case (Hang, _) => Failed(Hangs)
  }

  function ReadValue(s: Stream): Parsed<Short> {
    match Next(s)
    case (Token(t), u) => Parsed(AsShort(Atoi(t)), u)
    case (End, _) => Failed(Expected("Seed value", ""))
    case (Hang, _) => Failed(Hangs)
  }

  /** The next n values. */
  function ReadValues(s: Stream, n: nat): Parsed<Seed>
    decreases n
  {
    if n == 0 then Parsed([], s)
    else
      match ReadValue(s)
      case Failed(f) => Failed(f)
      case Parsed(v, u) =>
        match ReadValues(u, n - 1)
        case Failed(f) => Failed(f)
        case Parsed(vs, w) => Parsed([v] + vs, w)
  }

  /** One call of ParseSeed. */
  function ReadSeed(s: Stream, name: string): Parsed<Seed> {
    match ReadName(s, name)
    case Failed(f) => Failed(f)
    case Parsed(_, u) => ReadValues(u, 3)
  }

  function ReadSeeds(s: Stream, names: seq<string>): Parsed<seq<Seed>>
    decreases |names|
  {
    if names == [] then Parsed([], s)
    else
      match ReadSeed(s, names[0])
      case Failed(f) => Failed(f)
      case Parsed(seed, u) =>
        match ReadSeeds(u, names[1..])
        case Failed(f) => Failed(f)
        case Parsed(seeds, w) => Parsed([seed] + seeds, w)
  }

  // ---------- Which files are accepted ----------

  /** The words start with one name and three more words for each seed. */
  predicate Fits(ws: seq<string>, names: seq<string>) {
    names == [] || (|ws| >= 4 && ws[0] == names[0] && Fits(ws[4..], names[1..]))
  }

  function Values(ws: seq<string>, names: seq<string>): seq<Seed>
    requires Fits(ws, names)
  {
    if names == [] then []
    else
      [[AsShort(Atoi(ws[1])), AsShort(Atoi(ws[2])), AsShort(Atoi(ws[3]))]] + Values(ws[4..], names[1..])
  }

  function Remaining(s: Stream): seq<string> { ReadAll(s).words }

  lemma {:induction false} ReadValuesWords(s: Stream, n: nat)
    ensures ReadValues(s, n).Parsed? <==> |Remaining(s)| >= n
    ensures var r := ReadValues(s, n); r.Parsed? ==>
      && Remaining(r.next) == Remaining(s)[n..] && |r.value| == n
      && forall i :: 0 <= i < n ==> r.value[i] == AsShort(Atoi(Remaining(s)[i]))
    decreases n
  {
    if n > 0 && ReadValue(s).Parsed? {
      var u := ReadValue(s).next;
      assert Remaining(s)[1..] == Remaining(u);
      ReadValuesWords(u, n - 1);
    }
  }

  lemma {:induction false} ReadSeedWords(s: Stream, name: string)
    ensures ReadSeed(s, name).Parsed? <==> |Remaining(s)| >= 4 && Remaining(s)[0] == name
    ensures var r := ReadSeed(s, name); var ws := Remaining(s); r.Parsed? ==>
      && Remaining(r.next) == ws[4..]
      && r.value == [AsShort(Atoi(ws[1])), AsShort(Atoi(ws[2])), AsShort(Atoi(ws[3]))]
  {
    if ReadName(s, name).Parsed? {
      var u := ReadName(s, name).next;
      assert Remaining(s)[1..] == Remaining(u);
      ReadValuesWords(u, 3);
    }
  }

  lemma {:induction false} ValuesMissing(s: Stream, n: nat)
    requires |Remaining(s)| < n
    ensures ReadValues(s, n) == Failed(if ReadAll(s).hangs then Hangs else Expected("Seed value", ""))
    decreases n
  {
    if ReadValue(s).Parsed? {
      var u := ReadValue(s).next;
      assert Remaining(s)[1..] == Remaining(u);
      ValuesMissing(u, n - 1);
    }
  }

  /** What one call complains about: a wrong name, a missing name or a missing value. */
  lemma {:induction false} SeedErrors(s: Stream, name: string)
    ensures var ws, hangs := Remaining(s), ReadAll(s).hangs;
      && (ws == [] ==> ReadSeed(s, name) == Failed(if hangs then Hangs else Expected(name, "")))
      && (ws != [] && ws[0] != name ==> ReadSeed(s, name) == Failed(Expected(name, ws[0])))
      && (0 < |ws| < 4 && ws[0] == name ==>
            ReadSeed(s, name) == Failed(if hangs then Hangs else Expected("Seed value", "")))
  {
    if ReadName(s, name).Parsed? {
      var u := ReadName(s, name).next;
      assert Remaining(s)[1..] == Remaining(u);
      if |Remaining(u)| < 3 { ValuesMissing(u, 3); }
    }
  }

  /** The seeds are read exactly when the words of the file have the right names in place. */
  lemma {:induction false} ReadSeedsIffFits(s: Stream, names: seq<string>)
    ensures ReadSeeds(s, names).Parsed? <==> Fits(Remaining(s), names)
    ensures Fits(Remaining(s), names) ==> ReadSeeds(s, names).value == Values(Remaining(s), names)
    decreases |names|
  {
    if names != [] {
      ReadSeedWords(s, names[0]);
      if ReadSeed(s, names[0]).Parsed? {
        ReadSeedsIffFits(ReadSeed(s, names[0]).next, names[1..]);
      }
    }
  }

  /** Comments, delimiters and words after the last value do not matter to the seeds read. */
  lemma {:induction false} SeedsOfAnyLayout(ps: seq<Piece>)
    requires Valid(ps)
    ensures var r := ReadSeeds(Stream(PrintAll(ps), false), NAMES);
      && (r.Parsed? <==> Fits(Words(ps).words, NAMES))
      && (r.Parsed? ==> r.value == Values(Words(ps).words, NAMES))
  {
    ReadsWords(ps);
    ReadSeedsIffFits(Stream(PrintAll(ps), false), NAMES);
  }

  // ---------- Writing and reading back ----------

  function SeedLine(name: string, seed: Seed): string
    requires |seed| == 3
  {
    name + " " + Decimal(seed[0]) + " " + Decimal(seed[1]) + " " + Decimal(seed[2]) + "\n"
  }

  predicate Triples(seeds: seq<Seed>) {
    forall i :: 0 <= i < |seeds| ==> |seeds[i]| == 3
  }

  function SeedText(names: seq<string>, seeds: seq<Seed>): string
    requires |names| == |seeds| && Triples(seeds)
  {
    if names == [] then "" else SeedLine(names[0], seeds[0]) + SeedText(names[1..], seeds[1..])
  }

  predicate IsName(name: string) { ValidPiece(Word(name)) }

  lemma {:induction false} AtoiOfDecimal(n: Short)
    ensures AsShort(Atoi(Decimal(n))) == n
  {
    RunOfDecimal(Decimal(n), "");
    assert Decimal(n) + "" == Decimal(n) && Decimal(n)[..|Decimal(n)|] == Decimal(n);
    assert IsDigit(Decimal(n)[0]);
    ReadDecimal(n);
  }

  /** A word and the delimiter after it are read off the front of a file. */
  lemma {:induction false} WordThenDelim(w: string, c: char, rest: string)
    requires ValidPiece(Word(w)) && IsDelim(c)
    ensures Next(Stream(w + [c] + rest, false)) == (Token(w), Stream(rest, false))
  {
    assert w + [c] + rest == w + ([c] + rest) && ([c] + rest)[1..] == rest;
    AtWord(w, [c] + rest);
  }

  lemma {:induction false} ReadLine(name: string, seed: Seed, rest: string)
    requires |seed| == 3 && IsName(name)
    ensures ReadSeed(Stream(SeedLine(name, seed) + rest, false), name) == Parsed(seed, Stream(rest, false))
  {
    var a, b, c := Decimal(seed[0]), Decimal(seed[1]), Decimal(seed[2]);
    var s3 := c + ['\n'] + rest;
    var s2 := b + [' '] + s3;
    var s1 := a + [' '] + s2;
    assert SeedLine(name, seed) + rest == name + [' '] + s1;
    WordThenDelim(name, ' ', s1);
    OneValue(seed[0], ' ', s2);
    OneValue(seed[1], ' ', s3);
    OneValue(seed[2], '\n', rest);
    ThreeValues(Stream(s1, false), Stream(s2, false), Stream(s3, false), Stream(rest, false), seed);
  }

  lemma {:induction false} OneValue(v: Short, c: char, rest: string)
    requires IsDelim(c)
    ensures ReadValue(Stream(Decimal(v) + [c] + rest, false)) == Parsed(v, Stream(rest, false))
  {
    AtoiOfDecimal(v);
    WordThenDelim(Decimal(v), c, rest);
  }

  lemma {:induction false} ThreeValues(s1: Stream, s2: Stream, s3: Stream, s4: Stream, seed: Seed)
    requires |seed| == 3
    requires ReadValue(s1) == Parsed(seed[0], s2)
    requires ReadValue(s2) == Parsed(seed[1], s3)
    requires ReadValue(s3) == Parsed(seed[2], s4)
    ensures ReadValues(s1, 3) == Parsed(seed, s4)
  {
    assert [seed[0]] + ([seed[1]] + ([seed[2]] + [])) == seed;
  }

  lemma {:induction false} ReadBack(names: seq<string>, seeds: seq<Seed>)
    requires |names| == |seeds| && Triples(seeds) && forall name :: name in names ==> IsName(name)
    ensures ReadSeeds(Stream(SeedText(names, seeds), false), names) == Parsed(seeds, Stream("", false))
    decreases |names|
  {
    if names != [] {
      ReadLine(names[0], seeds[0], SeedText(names[1..], seeds[1..]));
      ReadBack(names[1..], seeds[1..]);
      assert [seeds[0]] + seeds[1..] == seeds;
    }
  }

  /** The file that OutputSeeds writes gives back all six seeds. */
  lemma {:induction false} SeedsRoundTrip(seeds: seq<Seed>)
    requires |seeds| == 6 && Triples(seeds)
    ensures ReadSeeds(Stream(SeedText(NAMES, seeds), false), NAMES) == Parsed(seeds, Stream("", false))
  {
    ReadBack(NAMES, seeds);
  }

  // ---------- The file and its numbers spelled out ----------

  /** What OutputSeeds writes: six lines, each with its name and three numbers. */
  lemma {:induction false} SeedFileText(seeds: seq<Seed>)
    requires |seeds| == 6 && Triples(seeds)
    ensures SeedText(NAMES, seeds)
         == SeedLine("PLACES", seeds[0]) + (SeedLine("CONNECT", seeds[1]) + (SeedLine("EDGE_CONN", seeds[2])
            + (SeedLine("GROUPING", seeds[3]) + (SeedLine("ASSIGNMENT", seeds[4]) + (SeedLine("BANDWIDTH", seeds[5]) + "")))))
    ensures SeedLine("PLACES", [1, 20, 345]) == "PLACES 1 20 345\n"
  {
    hide SeedLine;
    TextCons(NAMES, seeds);
    TextCons(NAMES[1..], seeds[1..]);
    TextCons(NAMES[1..][1..], seeds[1..][1..]);
    TextCons(NAMES[1..][1..][1..], seeds[1..][1..][1..]);
    TextCons(NAMES[1..][1..][1..][1..], seeds[1..][1..][1..][1..]);
    TextCons(NAMES[1..][1..][1..][1..][1..], seeds[1..][1..][1..][1..][1..]);
    SampleLine();
  }

  lemma {:induction false} TextCons(names: seq<string>, seeds: seq<Seed>)
    requires |names| == |seeds| > 0 && Triples(seeds)
    ensures SeedText(names, seeds) == SeedLine(names[0], seeds[0]) + SeedText(names[1..], seeds[1..])
  {}

  lemma {:induction false} SampleNumbers()
    ensures Decimal(1) == "1" && Decimal(20) == "20" && Decimal(345) == "345"
  {
    assert Decimal(2) == "2" && Decimal(3) == "3" && Decimal(34) == "34";
  }

  lemma {:induction false} SampleLine()
    ensures SeedLine("PLACES", [1, 20, 345]) == "PLACES 1 20 345\n"
  {
    hide Decimal;
    SampleNumbers();
    assert "PLACES" + " " + "1" == "PLACES 1";
    assert "PLACES 1" + " " + "20" == "PLACES 1 20";
    assert "PLACES 1 20" + " " + "345" == "PLACES 1 20 345";
    assert "PLACES 1 20 345" + "\n" == "PLACES 1 20 345\n";
  }

  predicate Blank(s: string) {
    forall i :: 0 <= i < |s| ==> s[i] == ' ' || s[i] == '\t' || s[i] == '\n' || s[i] == '\r' || s[i] == 11 as char || s[i] == 12 as char
  }

  lemma {:induction false} AtoiSigns(digits: string, rest: string)
    requires AllDigits(digits) && (rest == "" || !IsDigit(rest[0]))
    ensures digits != "" ==> Atoi(digits + rest) == ReadNat(digits)
    ensures Atoi(['-'] + (digits + rest)) == 0 - ReadNat(digits)
    ensures Atoi(['+'] + (digits + rest)) == ReadNat(digits)
  {
    RunOfDecimal(digits, rest);
    var s := digits + rest;
    assert s[..|digits|] == digits && (['-'] + s)[1..] == s && (['+'] + s)[1..] == s;
    assert digits != "" ==> s[0] == digits[0] && IsDigit(digits[0]);
    hide ReadNat, DigitRun;
  }

  lemma {:induction false} AtoiSkips(blanks: string, s: string)
    requires Blank(blanks)
    ensures Atoi(blanks + s) == Atoi(s)
    decreases |blanks|
  {
    if blanks == "" {
      assert blanks + s == s;
    } else {
      AtoiSkips(blanks[1..], s);
      var all := blanks + s;
      assert all[0] == blanks[0] && all[1..] == blanks[1..] + s && IsSpace(all[0]);
    }
  }

  /** atoi skips blanks, takes a sign and digits, and stops at the first other character. */
  lemma {:induction false} AtoiReads(blanks: string, digits: string, rest: string)
    requires Blank(blanks) && AllDigits(digits) && (rest == "" || !IsDigit(rest[0]))
    ensures digits != "" ==> Atoi(blanks + (digits + rest)) == ReadNat(digits)
    ensures Atoi(blanks + (['-'] + (digits + rest))) == 0 - ReadNat(digits)
    ensures Atoi(blanks + (['+'] + (digits + rest))) == ReadNat(digits)
  {
    AtoiSigns(digits, rest);
    hide Atoi, ReadNat;
    AtoiSkips(blanks, digits + rest);
    AtoiSkips(blanks, ['-'] + (digits + rest));
    AtoiSkips(blanks, ['+'] + (digits + rest));
  }
}
