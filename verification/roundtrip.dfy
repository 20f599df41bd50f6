/** A result that the guest emitted is the result the host reads, through
    console noise, damaged copies and mirrored agent output. */
module RoundTrip {
  import opened Model
  import opened Console
  import opened Codec

  // ---- Soundness: nothing but the document ----

  /** Every END line carries the document's digest. */
  predicate EndsCarry<R>(x: Scheme<R>, lines: seq<Line>, d: Bytes) {
    forall i | 0 <= i < |lines| && lines[i].End? :: lines[i].digest == x.hash(d)
  }

  lemma {:induction false} OnlyTheDocument<R>(x: Scheme<R>, lines: seq<Line>, first: Option<Failure>, d: Bytes)
    requires Faithful(x, d) && EndsCarry(x, lines, d)
    ensures ParseLines(x, lines, first).Got? ==> ParseLines(x, lines, first) == Got(x.read(d).value)
    decreases |lines|
  {
    if lines != [] {
      var front, last := lines[..|lines| - 1], lines[|lines| - 1];
      if last.End? {
        var copy := TaskCopy(x, front, last.count, last.digest);
        if copy.Failed? {
          OnlyTheDocument(x, front, if first.Some? then first else Some(copy.failure), d);
        }
      } else {
        OnlyTheDocument(x, front, first, d);
      }
    }
  }

  // ---- Pieces ----

  function Pieces(s: string): seq<string> {
    if |s| <= CHUNK_SIZE then [s] else [s[..CHUNK_SIZE]] + Pieces(s[CHUNK_SIZE..])
  }

  lemma {:induction false} PiecesJoin(s: string)
    ensures Concat(Pieces(s)) == s
    ensures Pieces(s) != []
    ensures forall i | 0 <= i < |Pieces(s)| :: |Pieces(s)[i]| <= CHUNK_SIZE
    ensures s != "" ==> forall i | 0 <= i < |Pieces(s)| :: Pieces(s)[i] != ""
  {
    if |s| <= CHUNK_SIZE {
      assert Concat([s][1..]) == "";
    } else {
      PiecesJoin(s[CHUNK_SIZE..]);
      assert Pieces(s)[1..] == Pieces(s[CHUNK_SIZE..]);
      assert s == s[..CHUNK_SIZE] + s[CHUNK_SIZE..];
    }
  }

  lemma {:induction false} PiecesCount(s: string, n: nat)
    requires |s| <= CHUNK_SIZE * n && n > 0
    ensures |Pieces(s)| <= n
  {
    if |s| > CHUNK_SIZE {
      PiecesCount(s[CHUNK_SIZE..], n - 1);
    }
  }

  lemma {:induction false} PiecesText(s: string)
    requires Base64Text(s)
    ensures forall i | 0 <= i < |Pieces(s)| :: Base64Text(Pieces(s)[i])
  {
    if |s| > CHUNK_SIZE {
      PiecesText(s[CHUNK_SIZE..]);
    }
  }

  // ---- An intact copy gathers ----

  predicate Agrees(line: Line, pieces: seq<string>) {
    && !line.End?
    && (line.Chunk? && line.index < |pieces| && 0 < |line.text| <= MAX_CHUNK ==> line.text == pieces[line.index])
  }

  /** The lines of one copy, in any order and among anything else: every
      piece is there, and no line claims another text for one. */
  predicate Intact(lines: seq<Line>, pieces: seq<string>) {
    && (forall i | 0 <= i < |lines| :: Agrees(lines[i], pieces))
    && (forall k | 0 <= k < |pieces| :: Chunk(k, pieces[k]) in lines)
  }

  predicate Partial(chunks: seq<string>, pieces: seq<string>) {
    |chunks| == |pieces| && forall k | 0 <= k < |pieces| :: chunks[k] == "" || chunks[k] == pieces[k]
  }

  /** What is still missing lies further back. */
  predicate Ahead(lines: seq<Line>, chunks: seq<string>, pieces: seq<string>)
    requires |chunks| == |pieces|
  {
    forall k | 0 <= k < |pieces| && chunks[k] == "" :: Chunk(k, pieces[k]) in lines
  }

  lemma {:induction false} GatherIntact(earlier: seq<Line>, lines: seq<Line>, chunks: seq<string>, pieces: seq<string>)
    requires forall i | 0 <= i < |lines| :: Agrees(lines[i], pieces)
    requires Partial(chunks, pieces) && Ahead(lines, chunks, pieces)
    requires forall k | 0 <= k < |pieces| :: 0 < |pieces[k]| <= MAX_CHUNK
    ensures Gather(earlier + lines, chunks) == pieces
    decreases |lines|
  {
    if lines == [] {
      assert chunks == pieces;
      FullStays(earlier + lines, chunks);
    } else {
      var n := |lines| - 1;
      var front, all, line := lines[..n], earlier + lines, lines[n];
      assert all[..|all| - 1] == earlier + front && all[|all| - 1] == line;
      assert lines == front + [line];
      assert Agrees(line, pieces);
      var next := if line.Chunk? && Fresh(chunks, line.index, line.text) then chunks[line.index := line.text] else chunks;
      forall k | 0 <= k < |pieces| && next[k] == ""
        ensures Chunk(k, pieces[k]) in front
      {
        assert chunks[k] == "" && Chunk(k, pieces[k]) in lines;
        assert line != Chunk(k, pieces[k]);
      }
      GatherIntact(earlier, front, next, pieces);
    }
  }

  /** An END line with an intact copy right before it yields the document. */
  lemma {:induction false} IntactCopy<R>(x: Scheme<R>, earlier: seq<Line>, lines: seq<Line>, d: Bytes)
    requires Faithful(x, d) && Intact(lines, Pieces(x.encode(d)))
    ensures TaskCopy(x, earlier + lines, |Pieces(x.encode(d))|, x.hash(d)) == Got(x.read(d).value)
  {
    var pieces := Pieces(x.encode(d));
    PiecesJoin(x.encode(d));
    PiecesCount(x.encode(d), MAX_CHUNKS);
    GatherIntact(earlier, lines, Blank(|pieces|), pieces);
  }

  /** One intact copy among the lines is enough: newer damaged copies are
      passed over, and none can yield anything else. */
  lemma {:induction false} IntactDecodes<R>(x: Scheme<R>, earlier: seq<Line>, copy: seq<Line>, later: seq<Line>,
                                            first: Option<Failure>, d: Bytes)
    requires Faithful(x, d) && Intact(copy, Pieces(x.encode(d)))
    requires EndsCarry(x, earlier + copy + [End(|Pieces(x.encode(d))|, x.hash(d))] + later, d)
    ensures ParseLines(x, earlier + copy + [End(|Pieces(x.encode(d))|, x.hash(d))] + later, first) == Got(x.read(d).value)
    decreases |later|
  {
    var end := End(|Pieces(x.encode(d))|, x.hash(d));
    var all := earlier + copy + [end] + later;
    if later == [] {
      assert all[..|all| - 1] == earlier + copy && all[|all| - 1] == end;
      IntactCopy(x, earlier, copy, d);
    } else {
      var n := |later| - 1;
      var rest, line := earlier + copy + [end] + later[..n], later[n];
      assert all[..|all| - 1] == rest && all[|all| - 1] == line;
      if line.End? {
        var newest := TaskCopy(x, rest, line.count, line.digest);
        if newest.Failed? {
          IntactDecodes(x, earlier, copy, later[..n], if first.Some? then first else Some(newest.failure), d);
        }
      } else {
        IntactDecodes(x, earlier, copy, later[..n], first, d);
      }
    }
  }

  // ---- What the guest emits is intact ----

  function ChunkLines(pieces: seq<string>): seq<string> {
    seq(|pieces|, i requires 0 <= i < |pieces| => ChunkLine(i, pieces[i]))
  }

  /** One round of emit. */
  function Emission<R>(x: Scheme<R>, d: Bytes): seq<string> {
    var pieces := Pieces(x.encode(d));
    ChunkLines(pieces) + [EndLine(|pieces|, x.hash(d))]
  }

  /** What is heard of some lines: each of them, as it parses, with other
      console writers and mirrored agent output in between. A line may have
      gained carriage returns or stand behind an erased status line. */
  ghost predicate Woven(copy: seq<Line>, lines: seq<Line>)
    decreases |lines|
  {
    if lines == [] then copy == []
    else
      || (copy != [] && lines[0] == copy[0] && Woven(copy[1..], lines[1..]))
      || (lines[0] == Other && Woven(copy, lines[1..]))
  }

  lemma {:induction false} WovenFrom(copy: seq<Line>, lines: seq<Line>)
    requires Woven(copy, lines)
    ensures forall i | 0 <= i < |lines| :: lines[i] == Other || lines[i] in copy
    ensures forall v | v in copy :: v in lines
    decreases |lines|
  {
    if lines != [] {
      if copy != [] && lines[0] == copy[0] && Woven(copy[1..], lines[1..]) {
        WovenFrom(copy[1..], lines[1..]);
        assert copy == [copy[0]] + copy[1..];
      } else {
        WovenFrom(copy, lines[1..]);
      }
      assert lines == [lines[0]] + lines[1..];
    }
  }

  /** What is heard of two parts is heard one after the other. */
  lemma {:induction false} WovenParts(a: seq<Line>, b: seq<Line>, lines: seq<Line>) returns (k: nat)
    requires Woven(a + b, lines)
    ensures k <= |lines| && Woven(a, lines[..k]) && Woven(b, lines[k..])
    decreases |lines|
  {
    if a == [] {
      k := 0;
      assert a + b == b && lines[0..] == lines;
    } else {
      var rest := lines[1..];
      if lines[0] == a[0] && Woven((a + b)[1..], rest) {
        assert (a + b)[1..] == a[1..] + b;
        k := WovenParts(a[1..], b, rest);
      } else {
        k := WovenParts(a, b, rest);
      }
      assert lines[..k + 1][1..] == rest[..k] && rest[k..] == lines[k + 1..];
      k := k + 1;
    }
  }

  lemma {:induction false} ChunkLinesParse(pieces: seq<string>)
    requires |pieces| < 100000 && forall i | 0 <= i < |pieces| :: Base64Text(pieces[i])
    ensures forall i | 0 <= i < |pieces| :: ParseLine(ChunkLines(pieces)[i]) == Chunk(i, pieces[i])
  {
    forall i | 0 <= i < |pieces|
      ensures ParseLine(ChunkLines(pieces)[i]) == Chunk(i, pieces[i])
    {
      ChunkRoundTrip(i, pieces[i]);
    }
  }

  lemma {:induction false} ChunksParsed(pieces: seq<string>)
    requires |pieces| < 100000 && forall i | 0 <= i < |pieces| :: Base64Text(pieces[i])
    ensures |ParseAll(ChunkLines(pieces))| == |pieces|
    ensures forall i | 0 <= i < |pieces| :: ParseAll(ChunkLines(pieces))[i] == Chunk(i, pieces[i])
  {
    ChunkLinesParse(pieces);
    forall i | 0 <= i < |pieces|
      ensures ParseAll(ChunkLines(pieces))[i] == Chunk(i, pieces[i])
    {
      ParsedAt(ChunkLines(pieces), i);
    }
  }

  lemma {:induction false} WovenIntact(pieces: seq<string>, lines: seq<Line>)
    requires |pieces| < 100000 && forall i | 0 <= i < |pieces| :: Base64Text(pieces[i])
    requires Woven(ParseAll(ChunkLines(pieces)), lines)
    ensures Intact(lines, pieces)
  {
    var copy := ParseAll(ChunkLines(pieces));
    ChunksParsed(pieces);
    WovenFrom(copy, lines);
    forall i | 0 <= i < |lines|
      ensures Agrees(lines[i], pieces)
    {
      if lines[i] != Other {
        var k :| 0 <= k < |copy| && copy[k] == lines[i];
        assert lines[i] == Chunk(k, pieces[k]);
      }
    }
    forall k | 0 <= k < |pieces|
      ensures Chunk(k, pieces[k]) in lines
    {
      assert copy[k] in copy;
    }
  }

  /** One emitted copy, heard among whatever else the console shows, decodes
      to the document, if every END line in sight carries its digest. Damaged
      copies, before or after, do no harm. */
  lemma {:induction false} HeardDecodes<R>(x: Scheme<R>, d: Bytes, earlier: seq<Line>, heard: seq<Line>, later: seq<Line>)
    requires Faithful(x, d) && Woven(ParseAll(ChunkLines(Pieces(x.encode(d)))), heard)
    requires EndsCarry(x, earlier + heard + [End(|Pieces(x.encode(d))|, x.hash(d))] + later, d)
    ensures ParseLines(x, earlier + heard + [End(|Pieces(x.encode(d))|, x.hash(d))] + later, None) == Got(x.read(d).value)
  {
    PiecesText(x.encode(d));
    PiecesCount(x.encode(d), MAX_CHUNKS);
    WovenIntact(Pieces(x.encode(d)), heard);
    IntactDecodes(x, earlier, heard, later, None, d);
  }

  lemma {:induction false} ParseTwo(a: seq<string>, b: seq<string>)
    ensures ParseAll(a + b) == ParseAll(a) + ParseAll(b)
  {
    MapConcat(ParseLine, a, b);
  }

  lemma {:induction false} ParsedAt(lines: seq<string>, i: nat)
    requires i < |lines|
    ensures ParseAll(lines)[i] == ParseLine(lines[i])
  {
    MapAt(ParseLine, lines, i);
  }
}
