/**
 The tokens of ns-3/BRITE/Parser.cc: what successive calls of GetNextToken return on a file,
 and a description of files as delimiters, comments and words that says the same.
 */
module SeedTokens {

  /** The size of the buffer a comment is read into. */
  const MAX_LINE := 10000

  /** The sixth entry of the delimiter vector is never set and stays the null character. */
  predicate IsDelim(c: char) {
    c == ' ' || c == '\t' || c == ':' || c == '\n' || c == '/' || c == '\0'
  }

  predicate IsComment(c: char) { c == '#' }

  /** What is left to read, and whether a read has run past the end. */
  datatype Stream = Stream(rest: string, eof: bool)

  /** Hang: the call never returns, for a failed getline leaves it looping. */
  datatype Outcome = Token(text: string) | End | Hang

  function Blanks(s: string): (n: nat)
    ensures n <= |s|
    ensures n < |s| ==> !IsDelim(s[n])
  {
    if s == "" || !IsDelim(s[0]) then 0 else 1 + Blanks(s[1..])
  }

  function WordLength(s: string): (n: nat)
    ensures n <= |s| && NoDelim(s[..n])
    ensures n < |s| ==> IsDelim(s[n])
  {
    if s == "" || IsDelim(s[0]) then 0 else 1 + WordLength(s[1..])
  }

  function LineLength(s: string): (n: nat)
    ensures n <= |s| && '\n' !in s[..n]
    ensures n < |s| ==> s[n] == '\n'
  {
    if s == "" || s[0] == '\n' then 0 else 1 + LineLength(s[1..])
  }

  predicate NoDelim(s: string) { forall i :: 0 <= i < |s| ==> !IsDelim(s[i]) }

  /** One call of GetNextToken. */
  function Next(s: Stream): (r: (Outcome, Stream))
    ensures r.0.Token? ==> r.0.text != "" && |r.1.rest| < |s.rest|
    decreases |s.rest|, 1
  {
    if s.eof then (End, s) else NextAt(s.rest[Blanks(s.rest)..])
  }

  /** The call goes on at t, past the leading delimiters. */
  function NextAt(t: string): (r: (Outcome, Stream))
    requires t == "" || !IsDelim(t[0])
    ensures r.0.Token? ==> r.0.text != "" && |r.1.rest| < |t|
    decreases |t|, 0
  {
    if t == "" then (End, Stream("", true))
    else if IsComment(t[0]) then
      var n := LineLength(t[1..]);
      if n >= MAX_LINE then (Hang, Stream("", false))
      else if n + 1 == |t| then (End, Stream("", true))
      else Next(Stream(t[n + 2..], false))
    else
      var n := WordLength(t);
      if n == |t| then (Token(t), Stream("", true))
      else (Token(t[..n]), Stream(t[n + 1..], false))
  }

  datatype Reading = Reading(words: seq<string>, hangs: bool)

  /** The tokens of successive calls, up to the first call that finds none or hangs. */
  function ReadAll(s: Stream): Reading
    decreases |s.rest|
  {
    match Next(s)
    case (Token(t), u) => var r := ReadAll(u); Reading([t] + r.words, r.hangs)
    case (End, _) => Reading([], false)
    case (Hang, _) => Reading([], true)
  }

  // ---------- Files described by their pieces ----------

  /** An unfinished comment runs to the end of the file. */
  datatype Piece = Delim(c: char) | Comment(text: string) | Unfinished(text: string) | Word(text: string)

  function Print(p: Piece): string {
    match p
    case Delim(c) => [c]
    case Comment(t) => ['#'] + (t + ['\n'])
    case Unfinished(t) => ['#'] + t
    case Word(t) => t
  }

  function PrintAll(ps: seq<Piece>): string {
    if ps == [] then "" else Print(ps[0]) + PrintAll(ps[1..])
  }

  predicate ValidPiece(p: Piece) {
    match p
    case Delim(c) => IsDelim(c)
    case Comment(t) => '\n' !in t
    case Unfinished(t) => '\n' !in t
    case Word(t) => t != "" && NoDelim(t) && !IsComment(t[0])
  }

  /** A word ends at a delimiter or at the end of the file. */
  predicate MayFollow(p: Piece, q: Piece) {
    (p.Word? ==> q.Delim?) && !p.Unfinished?
  }

  predicate Valid(ps: seq<Piece>) {
    ps == [] || (ValidPiece(ps[0]) && (|ps| > 1 ==> MayFollow(ps[0], ps[1])) && Valid(ps[1..]))
  }

  predicate TooLong(p: Piece) {
    (p.Comment? || p.Unfinished?) && |p.text| >= MAX_LINE
  }

  /** The words before the first overlong comment; hangs tells whether there is one. */
  function Words(ps: seq<Piece>): Reading {
    if ps == [] then Reading([], false)
    else if TooLong(ps[0]) then Reading([], true)
    else
      var r := Words(ps[1..]);
      if ps[0].Word? then Reading([ps[0].text] + r.words, r.hangs) else r
  }

  // ---------- Reading a described file ----------

  lemma {:induction false} DropFirst(c: char, s: string, n: nat)
    requires n <= |s|
    ensures ([c] + s)[1..] == s && ([c] + s)[n + 1..] == s[n..]
  {}

  lemma {:induction false} BlanksOf(c: char, s: string)
    requires IsDelim(c)
    ensures Next(Stream([c] + s, false)) == Next(Stream(s, false))
  {
    DropFirst(c, s, Blanks(s));
    assert Blanks([c] + s) == 1 + Blanks(s);
  }

  lemma {:induction false} NoBlanks(t: string)
    requires t == "" || !IsDelim(t[0])
    ensures Next(Stream(t, false)) == NextAt(t)
  {
    assert t[0..] == t;
  }

  lemma {:induction false} LineLengthOf(t: string, s: string)
    requires '\n' !in t && (s == "" || s[0] == '\n')
    ensures LineLength(t + s) == |t|
  {
    if t == "" {
      assert t + s == s;
    } else {
      assert t[0] in t && (t + s)[1..] == t[1..] + s;
      LineLengthOf(t[1..], s);
    }
  }

  lemma {:induction false} WordLengthOf(t: string, s: string)
    requires NoDelim(t) && (s == "" || IsDelim(s[0]))
    ensures WordLength(t + s) == |t|
  {
    if t == "" {
      assert t + s == s;
    } else {
      assert (t + s)[1..] == t[1..] + s;
      WordLengthOf(t[1..], s);
    }
  }

  lemma {:induction false} AfterComment(t: string, s: string)
    requires '\n' !in t && |t| < MAX_LINE
    ensures Next(Stream(['#'] + (t + (['\n'] + s)), false)) == Next(Stream(s, false))
  {
    var line := t + (['\n'] + s);
    NoBlanks(['#'] + line);
    DropFirst('#', line, |t| + 1);
    LineLengthOf(t, ['\n'] + s);
    assert line[|t| + 1..] == s;
  }

  lemma {:induction false} LongComment(t: string, s: string)
    requires '\n' !in t && |t| >= MAX_LINE && (s == "" || s[0] == '\n')
    ensures Next(Stream(['#'] + (t + s), false)).0 == Hang
  {
    NoBlanks(['#'] + (t + s));
    DropFirst('#', t + s, 0);
    LineLengthOf(t, s);
  }

  lemma {:induction false} AtUnfinished(t: string)
    requires '\n' !in t && |t| < MAX_LINE
    ensures Next(Stream(['#'] + t, false)).0 == End
  {
    NoBlanks(['#'] + t);
    DropFirst('#', t, 0);
    LineLengthOf(t, "");
    assert t + "" == t;
  }

  lemma {:induction false} AtWord(t: string, s: string)
    requires ValidPiece(Word(t)) && (s == "" || IsDelim(s[0]))
    ensures Next(Stream(t + s, false))
         == (Token(t), if s == "" then Stream("", true) else Stream(s[1..], false))
  {
    var file := t + s;
    assert file[0] == t[0];
    NoBlanks(file);
    WordLengthOf(t, s);
    assert file[..|t|] == t;
    if s == "" {
      assert file == t;
    }
    if s != "" {
      assert file[|t| + 1..] == s[1..];
    }
  }

  lemma {:induction false} ReadWord(t: string, s: string)
    requires ValidPiece(Word(t)) && (s == "" || IsDelim(s[0]))
    ensures var r := ReadAll(Stream(s, false)); ReadAll(Stream(t + s, false)) == Reading([t] + r.words, r.hangs)
  {
    AtWord(t, s);
    if s != "" {
      BlanksOf(s[0], s[1..]);
      assert s == [s[0]] + s[1..];
    }
  }

  lemma {:induction false} ReadComment(t: string, s: string)
    requires '\n' !in t
    ensures ReadAll(Stream(['#'] + (t + ['\n']) + s, false))
         == if |t| < MAX_LINE then ReadAll(Stream(s, false)) else Reading([], true)
  {
    assert ['#'] + (t + ['\n']) + s == ['#'] + (t + (['\n'] + s));
    if |t| < MAX_LINE {
      AfterComment(t, s);
    } else {
      LongComment(t, ['\n'] + s);
    }
  }

  lemma {:induction false} ReadUnfinished(t: string)
    requires '\n' !in t
    ensures ReadAll(Stream(['#'] + t, false)) == Reading([], |t| >= MAX_LINE)
  {
    if |t| < MAX_LINE {
      AtUnfinished(t);
    } else {
      LongComment(t, "");
      assert t + "" == t;
    }
  }

  /**
   On any file made of valid pieces, successive calls return exactly the words, up to the first
   comment of 10000 characters or more, where the call hangs.
   */
  lemma {:induction false} ReadsWords(ps: seq<Piece>)
    requires Valid(ps)
    ensures ReadAll(Stream(PrintAll(ps), false)) == Words(ps)
    decreases |ps|
  {
    if ps != [] {
      var tail := PrintAll(ps[1..]);
      ReadsWords(ps[1..]);
      match ps[0] {
        case Delim(c) =>
          BlanksOf(c, tail);
        case Comment(t) =>
          ReadComment(t, tail);
        case Unfinished(t) =>
          assert ps[1..] == [] && PrintAll(ps) == ['#'] + t;
          ReadUnfinished(t);
        case Word(t) =>
          ReadWord(t, tail);
      }
    }
  }

  // ---------- Every file has such a description ----------

  function PiecesOf(s: string): (ps: seq<Piece>)
    decreases |s|
  {
    if s == "" then []
    else if IsDelim(s[0]) then [Delim(s[0])] + PiecesOf(s[1..])
    else if IsComment(s[0]) then
      var n := LineLength(s[1..]);
      if n + 1 == |s| then [Unfinished(s[1..])]
      else [Comment(s[1..n + 1])] + PiecesOf(s[n + 2..])
    else
      var n := WordLength(s);
      [Word(s[..n])] + PiecesOf(s[n..])
  }

  predicate Describes(ps: seq<Piece>, s: string) {
    Valid(ps) && PrintAll(ps) == s
  }

  lemma {:induction false} CutComment(s: string, n: nat)
    requires n + 1 < |s| && s[0] == '#' && s[n + 1] == '\n'
    ensures s == ['#'] + (s[1..n + 1] + ['\n']) + s[n + 2..]
    ensures s[1..][..n] == s[1..n + 1]
  {}

  lemma {:induction false} CommentPieces(s: string, n: nat)
    requires n + 1 < |s| && IsComment(s[0]) && n == LineLength(s[1..])
    requires Describes(PiecesOf(s[n + 2..]), s[n + 2..])
    ensures Describes(PiecesOf(s), s)
  {
    var t, u := s[1..n + 1], s[n + 2..];
    CutComment(s, n);
    assert PiecesOf(s) == [Comment(t)] + PiecesOf(u);
  }

  /** Every file is made of valid pieces, so ReadsWords says what any file's tokens are. */
  lemma {:induction false} EveryFileIsPieces(s: string)
    ensures Describes(PiecesOf(s), s)
    decreases |s|
  {
    if s == "" {
    } else if IsDelim(s[0]) {
      EveryFileIsPieces(s[1..]);
    } else if IsComment(s[0]) {
      var n := LineLength(s[1..]);
      if n + 1 < |s| {
        EveryFileIsPieces(s[n + 2..]);
        CommentPieces(s, n);
      }
    } else {
      EveryFileIsPieces(s[WordLength(s)..]);
    }
  }

  /** The calls on a file hang exactly when one of its comments is overlong. */
  lemma {:induction false} HangsIffOverlong(s: string)
    ensures ReadAll(Stream(s, false)).hangs <==> exists p :: p in PiecesOf(s) && TooLong(p)
  {
    EveryFileIsPieces(s);
    ReadsWords(PiecesOf(s));
    WordsHang(PiecesOf(s));
  }

  lemma {:induction false} WordsHang(ps: seq<Piece>)
    ensures Words(ps).hangs <==> exists p :: p in ps && TooLong(p)
    decreases |ps|
  {
    if ps != [] {
      WordsHang(ps[1..]);
      assert forall p :: p in ps <==> p == ps[0] || p in ps[1..];
    }
  }

  /** A comment of 10000 characters hangs the first call; with one less it is read over. */
  lemma {:induction false} TenThousandHang()
    ensures ReadAll(Stream(['#'] + seq(10000, _ => 'x'), false)) == Reading([], true)
    ensures ReadAll(Stream(['#'] + seq(9999, _ => 'x'), false)) == Reading([], false)
  {
    ReadUnfinished(seq(10000, _ => 'x'));
    ReadUnfinished(seq(9999, _ => 'x'));
  }

  /** A space, a tab, a colon, a newline, a slash and the null character each part two words. */
  lemma {:induction false} SixDelimiters(a: string, d: char, b: string)
    requires d in [' ', '\t', ':', '\n', '/', '\0']
    requires a != "" && b != "" && a[0] != '#' && b[0] != '#'
    requires forall i :: 0 <= i < |a| ==> a[i] !in [' ', '\t', ':', '\n', '/', '\0']
    requires forall i :: 0 <= i < |b| ==> b[i] !in [' ', '\t', ':', '\n', '/', '\0']
    ensures ReadAll(Stream(a + [d] + b, false)) == Reading([a, b], false)
  {
    var ps := [Word(a), Delim(d), Word(b)];
    assert ps[1..] == [Delim(d), Word(b)] && ps[1..][1..] == [Word(b)] && ps[1..][1..][1..] == [];
    assert Valid([]) && Valid([Word(b)]) && Valid(ps[1..]) && Valid(ps);
    assert PrintAll([Word(b)]) == b && PrintAll(ps[1..]) == [d] + b && PrintAll(ps) == a + ([d] + b);
    assert a + ([d] + b) == a + [d] + b;
    assert Words([Word(b)]) == Reading([b], false) && Words(ps[1..]) == Reading([b], false);
    ReadsWords(ps);
  }
}
