/** Two logs that hold a whole copy which the host does not find. */
module Lost {
  import opened Model
  import opened Console
  import opened Codec
  import opened RoundTrip
  import opened Found

  // ---- Every line behind an erased status line ----

  function Behind(lines: seq<string>): seq<string> {
    seq(|lines|, i requires 0 <= i < |lines| => "\r" + lines[i])
  }

  lemma {:induction false} EmissionLines<R>(x: Scheme<R>, d: Bytes)
    requires Faithful(x, d)
    ensures var lines, pieces := Emission(x, d), Pieces(x.encode(d));
            && |lines| == |pieces| + 1 && |pieces| >= 1
            && (forall i | 0 <= i < |lines| :: OneLine(lines[i]) && lines[i] != "" && lines[i][0] == 'R')
            && (forall i | 0 <= i < |pieces| :: ParseLine(lines[i]) == Chunk(i, pieces[i]))
            && ParseLine(lines[|pieces|]) == End(|pieces|, x.hash(d)) && END_MARK <= lines[|pieces|]
  {
    var lines, pieces := Emission(x, d), Pieces(x.encode(d));
    PiecesText(x.encode(d));
    PiecesJoin(x.encode(d));
    PiecesCount(x.encode(d), MAX_CHUNKS);
    LastLine(|pieces|, x.hash(d));
    forall i | 0 <= i < |pieces|
      ensures ParseLine(lines[i]) == Chunk(i, pieces[i]) && OneLine(lines[i]) && lines[i] != "" && lines[i][0] == 'R'
    {
      ChunkRoundTrip(i, pieces[i]);
      FirstChar(i, pieces[i]);
    }
  }

  lemma {:induction false} LastLine(n: nat, digest: string)
    requires n < 100000 && DigestText(digest)
    ensures var end := EndLine(n, digest);
            ParseLine(end) == End(n, digest) && OneLine(end) && END_MARK <= end && end != "" && end[0] == 'R'
  {
    EndRoundTrip(n, digest);
  }

  lemma {:induction false} FirstChar(i: nat, text: string)
    ensures ChunkLine(i, text) != "" && ChunkLine(i, text)[0] == 'R'
  {
  }

  /** Lines that parse as one copy and its END line. */
  predicate Carries<R>(x: Scheme<R>, d: Bytes, lines: seq<Line>) {
    var pieces := Pieces(x.encode(d));
    && |lines| >= |pieces| + 1 && lines[|pieces|] == End(|pieces|, x.hash(d))
    && (forall i | 0 <= i < |pieces| :: lines[i] == Chunk(i, pieces[i]))
    && (forall i | |pieces| < i < |lines| && lines[i].End? :: lines[i].digest == x.hash(d))
  }

  lemma {:induction false} CarriedReads<R>(x: Scheme<R>, d: Bytes, log: string)
    requires Faithful(x, d) && Carries(x, d, ParseAll(Split(log)))
    ensures CopyAt(x, log, 0, 0) && EndsCarry(x, ParseAll(Split(log)), d)
  {
    var lines, pieces := ParseAll(Split(log)), Pieces(x.encode(d));
    var copy, later := lines[..|pieces|], lines[|pieces| + 1..];
    assert forall k | 0 <= k < |pieces| :: copy[k] == Chunk(k, pieces[k]);
    assert lines == copy + [End(|pieces|, x.hash(d))] + later;
    IntactReads(x, d, copy, later);
    assert log[0..] == log;
  }

  lemma {:induction false} NoMarkBehind(lines: seq<string>)
    requires forall i | 0 <= i < |lines| :: OneLine(lines[i]) && lines[i] != "" && lines[i][0] == '\r'
    ensures forall i | 0 <= i < |Join(lines)| - 1 && Join(lines)[i] == '\n' :: Join(lines)[i + 1] == '\r'
    ensures lines != [] ==> Join(lines) != "" && Join(lines)[0] == '\r'
  {
    if |lines| > 1 {
      var rest := Join(lines[1..]);
      NoMarkBehind(lines[1..]);
      var text := lines[0] + "\n" + rest;
      forall i | 0 <= i < |text| - 1 && text[i] == '\n'
        ensures text[i + 1] == '\r'
      {
        if i == |lines[0]| {
          assert text[i + 1] == rest[0];
        } else {
          assert i > |lines[0]|;
          assert rest[i - |lines[0]| - 1] == '\n' && text[i + 1] == rest[i - |lines[0]|];
        }
      }
    }
  }

  lemma {:induction false} BehindParses(lines: seq<string>)
    requires forall i | 0 <= i < |lines| :: lines[i] != "" && lines[i][0] == 'R'
    ensures ParseAll(Behind(lines)) == ParseAll(lines)
  {
    forall i | 0 <= i < |lines|
      ensures ParseAll(Behind(lines))[i] == ParseAll(lines)[i]
    {
      ParsedAt(Behind(lines), i);
      ParsedAt(lines, i);
      AsPrinted("\r", lines[i], "");
      assert "\r" + lines[i] + "" == Behind(lines)[i];
    }
  }

  lemma {:induction false} EmissionCarries<R>(x: Scheme<R>, d: Bytes, later: seq<Line>)
    requires Faithful(x, d) && forall i | 0 <= i < |later| && later[i].End? :: later[i].digest == x.hash(d)
    ensures Carries(x, d, ParseAll(Emission(x, d)) + later)
  {
    var lines := Emission(x, d);
    EmissionLines(x, d);
    forall i | 0 <= i < |lines|
      ensures ParseAll(lines)[i] == ParseLine(lines[i])
    {
      ParsedAt(lines, i);
    }
  }

  lemma {:induction false} BehindUnmarked(lines: seq<string>)
    requires forall i | 0 <= i < |lines| :: OneLine(lines[i]) && lines[i] != "" && lines[i][0] == '\r'
    ensures !RawMark(Join(lines))
  {
    var log := Join(lines);
    NoMarkBehind(lines);
    forall i
      ensures !At(log, MARKED_LINE, i)
    {
      if 0 <= i <= |log| - |MARKED_LINE| {
        var found := log[i..i + |MARKED_LINE|];
        assert found[0] == log[i] && found[1] == log[i + 1];
        assert MARKED_LINE[0] == '\n' && MARKED_LINE[1] == 'R';
      }
    }
  }

  lemma {:induction false} ErasedCarries<R>(x: Scheme<R>, d: Bytes)
    requires Faithful(x, d)
    ensures Carries(x, d, ParseAll(Split(Join(Behind(Emission(x, d))))))
  {
    var lines := Emission(x, d);
    EmissionLines(x, d);
    BehindParses(lines);
    SplitJoin(Behind(lines));
    EmissionCarries(x, d, []);
    assert ParseAll(lines) + [] == ParseAll(lines);
  }

  lemma {:induction false} ErasedUnmarked<R>(x: Scheme<R>, d: Bytes)
    requires Faithful(x, d)
    ensures !RawMark(Join(Behind(Emission(x, d))))
  {
    EmissionLines(x, d);
    BehindUnmarked(Behind(Emission(x, d)));
  }

  /** consoleLine sees through the carriage returns, the search for an END
      marker does not. */
  lemma {:induction false} ErasedCopyLost<R(!new)>(x: Scheme<R>, d: Bytes)
    requires Faithful(x, d)
    ensures var log := Join(Behind(Emission(x, d)));
            && CopyAt(x, log, 0, 0) && EndsCarry(x, ParseAll(Split(log)), d)
            && ParseTaskResult(x, log) == Failed(NoResult)
  {
    var log := Join(Behind(Emission(x, d)));
    ErasedCarries(x, d);
    CarriedReads(x, d, log);
    ErasedUnmarked(x, d);
    NotSeen(x, log);
  }

  // ---- A damaged copy far behind an intact one ----

  function Dots(n: nat): string {
    seq(n, _ => '.')
  }

  lemma {:induction false} JoinTwo(a: seq<string>, b: seq<string>)
    requires a != [] && b != []
    ensures Join(a + b) == Join(a) + "\n" + Join(b)
  {
    if |a| == 1 {
      assert (a + b)[1..] == b;
    } else {
      JoinTwo(a[1..], b);
      assert (a + b)[1..] == a[1..] + b;
    }
  }

  /** The log of an intact copy, other output of n characters, and the END
      line of a copy of which nothing else is left. */
  function FarLog<R>(x: Scheme<R>, d: Bytes, n: nat): string {
    Join(Emission(x, d) + [Dots(n)] + [EndLine(|Pieces(x.encode(d))|, x.hash(d))])
  }

  lemma {:induction false} FarParses(lines: seq<string>, n: nat, end: string)
    requires (forall i | 0 <= i < |lines| :: OneLine(lines[i])) && OneLine(end)
    ensures ParseAll(Split(Join(lines + [Dots(n)] + [end]))) == ParseAll(lines) + [Other, ParseLine(end)]
  {
    DotsAreOther(n);
    SplitJoin(lines + [Dots(n)] + [end]);
    ParseTwo(lines, [Dots(n)]);
    ParseTwo(lines + [Dots(n)], [end]);
    ParsedAt([Dots(n)], 0);
    ParsedAt([end], 0);
  }

  lemma {:induction false} FarLines<R>(x: Scheme<R>, d: Bytes, n: nat)
    requires Faithful(x, d)
    ensures Carries(x, d, ParseAll(Split(FarLog(x, d, n))))
  {
    var lines, end := Emission(x, d), EndLine(|Pieces(x.encode(d))|, x.hash(d));
    assert (forall i | 0 <= i < |lines| :: OneLine(lines[i])) && lines[|lines| - 1] == end
           && ParseLine(end) == End(|Pieces(x.encode(d))|, x.hash(d)) by {
      EmissionLines(x, d);
    }
    FarParses(lines, n, end);
    EmissionCarries(x, d, [Other, ParseLine(end)]);
  }

  lemma {:induction false} DotsAreOther(n: nat)
    ensures ParseLine(Dots(n)) == Other && OneLine(Dots(n))
  {
    TrimRightPrefix(Dots(n));
  }

  lemma {:induction false} FarText<R>(x: Scheme<R>, d: Bytes, n: nat)
    requires Faithful(x, d)
    ensures var end := EndLine(|Pieces(x.encode(d))|, x.hash(d));
            FarLog(x, d, n) == Join(Emission(x, d)) + "\n" + Dots(n) + "\n" + end
  {
    var end := EndLine(|Pieces(x.encode(d))|, x.hash(d));
    JoinTwo(Emission(x, d), [Dots(n)]);
    JoinTwo(Emission(x, d) + [Dots(n)], [end]);
  }

  /** The host reads only what precedes the last END line by 4 MiB, so the
      intact copy before that is lost. */
  lemma {:induction false} FarCopyLost<R(!new)>(x: Scheme<R>, d: Bytes, n: nat)
    requires Faithful(x, d) && n >= WINDOW
    ensures CopyAt(x, FarLog(x, d, n), 0, 0) && EndsCarry(x, ParseAll(Split(FarLog(x, d, n))), d)
    ensures RawMark(FarLog(x, d, n)) && ParseTaskResult(x, FarLog(x, d, n)) == Failed(Incomplete)
  {
    var log, end := FarLog(x, d, n), EndLine(|Pieces(x.encode(d))|, x.hash(d));
    FarLines(x, d, n);
    CarriedReads(x, d, log);
    assert OneLine(end) && END_MARK <= end && ParseLine(end) == End(|Pieces(x.encode(d))|, x.hash(d)) by {
      EmissionLines(x, d);
    }
    FarText(x, d, n);
    FarWindow(log, Join(Emission(x, d)), n, end);
    WithWindow(x, log, Dots(WINDOW) + "\n" + end);
    AloneFails(x, d, end);
  }

  lemma {:induction false} FarWindow(log: string, copy: string, n: nat, end: string)
    requires n >= WINDOW && OneLine(end) && END_MARK <= end
    requires log == copy + "\n" + Dots(n) + "\n" + end
    ensures RawMark(log) && Window(log) == Some(Dots(WINDOW) + "\n" + end)
  {
    var head := copy + "\n" + Dots(n);
    var w: nat := |head| - WINDOW;
    SplitLine(end);
    LastMark(head, end);
    WindowIs(log);
    assert SeenFrom(log, w);
    assert head[w..] == Dots(WINDOW);
    assert log[w..] == head[w..] + "\n" + end;
  }

  lemma {:induction false} AloneFails<R>(x: Scheme<R>, d: Bytes, end: string)
    requires Faithful(x, d) && ParseLine(end) == End(|Pieces(x.encode(d))|, x.hash(d)) && OneLine(end)
    ensures ParseLines(x, ParseAll(Split(Dots(WINDOW) + "\n" + end)), None) == Failed(Incomplete)
  {
    var n := |Pieces(x.encode(d))|;
    AloneParses(end);
    PiecesJoin(x.encode(d));
    PiecesCount(x.encode(d), MAX_CHUNKS);
    OnlyEndFails(x, n, x.hash(d));
  }

  lemma {:induction false} AloneParses(end: string)
    requires OneLine(end)
    ensures ParseAll(Split(Dots(WINDOW) + "\n" + end)) == [Other, ParseLine(end)]
  {
    DotsAreOther(WINDOW);
    SplitAtNewline(Dots(WINDOW), end);
    SplitLine(Dots(WINDOW));
    SplitLine(end);
    ParsedAt([Dots(WINDOW)] + [end], 0);
    ParsedAt([Dots(WINDOW)] + [end], 1);
  }

  lemma {:induction false} OnlyEndFails<R>(x: Scheme<R>, n: nat, digest: string)
    requires 1 <= n <= MAX_CHUNKS
    ensures ParseLines(x, [Other, End(n, digest)], None) == Failed(Incomplete)
  {
    var lines := [Other, End(n, digest)];
    NothingGathered(x, n, digest);
    assert lines[..1] == [Other] && [Other][..0] == [];
    assert ParseLines(x, [], Some(Incomplete)) == Failed(Incomplete);
    assert ParseLines(x, [Other], Some(Incomplete)) == Failed(Incomplete);
  }

  lemma {:induction false} NothingGathered<R>(x: Scheme<R>, n: nat, digest: string)
    requires 1 <= n <= MAX_CHUNKS
    ensures TaskCopy(x, [Other], n, digest) == Failed(Incomplete)
  {
    assert [Other][..0] == [];
    assert Gather([], Blank(n)) == Blank(n);
    assert Blank(n)[0] == "";
  }
}
