/** The guest's side of the console: Mirror.add and emit of task-runner.py. */
module Guest {
  import opened Model
  import opened Console
  import opened Codec
  import opened RoundTrip
  import opened Found
  import Bound

  const OUTPUT_LIMIT := 61440
  const MIRROR_LIMIT := 10485760
  const MIRROR_LINE := 2000

  function Total(buffer: seq<string>): nat {
    if buffer == [] then 0 else |buffer[0]| + 1 + Total(buffer[1..])
  }

  lemma {:induction false} TotalMore(buffer: seq<string>, text: string)
    ensures Total(buffer + [text]) == Total(buffer) + |text| + 1
  {
    if buffer == [] {
      assert buffer + [text] == [text];
    } else {
      assert (buffer + [text])[1..] == buffer[1..] + [text];
      TotalMore(buffer[1..], text);
    }
  }

  /** The longest recent stretch of output within twice the limit. */
  function Recent(buffer: seq<string>): (r: seq<string>)
    ensures Total(r) <= 2 * OUTPUT_LIMIT
  {
    if Total(buffer) <= 2 * OUTPUT_LIMIT then buffer else Recent(buffer[1..])
  }

  /** Nothing is forgotten that would still have fitted. */
  lemma {:induction false} RecentIsLongest(buffer: seq<string>) returns (n: nat)
    ensures n <= |buffer| && Recent(buffer) == buffer[n..]
    ensures n > 0 ==> Total(buffer[n - 1..]) > 2 * OUTPUT_LIMIT
  {
    n := 0;
    assert buffer[0..] == buffer;
    if Total(buffer) > 2 * OUTPUT_LIMIT {
      var m := RecentIsLongest(buffer[1..]);
      n := m + 1;
      assert buffer[1..][m..] == buffer[n..];
      assert m > 0 ==> buffer[1..][m - 1..] == buffer[n - 1..];
    }
  }

  function Shown(text: string): string {
    "| " + if |text| <= MIRROR_LINE then text else text[..MIRROR_LINE]
  }

  function Repeated<T>(s: seq<T>, n: nat): seq<T> {
    if n == 0 then [] else Repeated(s, n - 1) + s
  }

  /** The log of a console: the serial line ends each line with a carriage
      return and a newline. */
  function Transcript(lines: seq<string>): string {
    if lines == [] then "" else lines[0] + "\r\n" + Transcript(lines[1..])
  }

  predicate Ended(text: string) {
    text == "" || text[|text| - 1] == '\n'
  }

  /** What writes put on the console: a newline within one ends a line too. */
  function Lines(texts: seq<string>): seq<string> {
    if texts == [] then [] else Lines(texts[..|texts| - 1]) + Split(texts[|texts| - 1])
  }

  /** Each element is one line. */
  predicate Unbroken(lines: seq<string>) {
    forall i | 0 <= i < |lines| :: OneLine(lines[i])
  }

  /** The chunks of one copy are within what the host reads before its END
      line. */
  predicate CopyFits<R>(x: Scheme<R>, d: Bytes) {
    |Transcript(ChunkLines(Pieces(x.encode(d))))| <= WINDOW + 1
  }

  /** Text without an END line, as a shutdown prints it. */
  predicate Trailing(text: string) {
    forall i | 0 <= i < |Split(text)| :: !(END_MARK <= Split(text)[i]) && !ParseLine(Split(text)[i]).End?
  }

  /** The host decodes the document from the console's log, after any text and
      before any without an END line. */
  ghost predicate Delivered<R>(x: Scheme<R>, d: Bytes, console: seq<string>)
    requires Faithful(x, d)
  {
    forall boot, after | Ended(boot) && Trailing(after) ::
      ParseTaskResult(x, boot + Transcript(console) + after) == Got(x.read(d).value)
  }

  class Runner<R> {
    const scheme: Scheme<R>
    var console: seq<string>
    var buffer: seq<string>
    var size: int
    var mirrored: nat
    var stopped: bool

    constructor (scheme: Scheme<R>)
      ensures this.scheme == scheme && console == [] && buffer == [] && mirrored == 0 && !stopped && Valid()
    {
      this.scheme := scheme;
      console, buffer, size, mirrored, stopped := [], [], 0, 0, false;
    }

    ghost predicate Valid()
      reads this
    {
      && size == Total(buffer) <= 2 * OUTPUT_LIMIT && mirrored < MIRROR_LIMIT + 4 * MIRROR_LINE + 4
      && Unbroken(console)
    }

    method PrintLine(text: string)
      modifies `console
      ensures console == old(console) + Split(text)
    {
      console := console + Split(text);
    }

    /** A status line of the runner itself. Its message may span lines: the
        console then stays free of result lines only if all but the first of
        them are. */
    method Status(message: string)
      requires Valid()
      modifies `console
      ensures Valid()
      ensures console == old(console) + Split(STATUS_MARK + message)
      ensures Quiet(console) <==> Quiet(old(console)) && Quiet(Split(message)[1..])
    {
      StatusLines(message);
      QuietTwo(console, Split(STATUS_MARK + message));
      SplitOneLine(STATUS_MARK + message);
      PrintLine(STATUS_MARK + message);
    }

    /** Agent output: mirrored behind a bar while the limit lasts, and its
        recent part remembered. `text` is one line of it, and `width` its
        shown part's length in UTF-8. */
    method Add(text: string, width: nat)
      requires Valid() && OneLine(text) && width <= 4 * MIRROR_LINE
      modifies `console, `buffer, `size, `mirrored
      ensures Valid()
      ensures console == old(console) + if !stopped && old(mirrored) < MIRROR_LIMIT then [Shown(text)] else []
      ensures Quiet(console) <==> Quiet(old(console))
      ensures mirrored == old(mirrored) + if !stopped && old(mirrored) < MIRROR_LIMIT then width + 4 else 0
      ensures buffer == Recent(old(buffer) + [text])
    {
      if !stopped && mirrored < MIRROR_LIMIT {
        mirrored := mirrored + width + 4;
        MirrorIsNoise(text);
        SplitLine(Shown(text));
        QuietTwo(console, [Shown(text)]);
        PrintLine(Shown(text));
      }
      TotalMore(buffer, text);
      buffer := buffer + [text];
      size := size + |text| + 1;
      while size > OUTPUT_LIMIT * 2 && buffer != []
        invariant size == Total(buffer)
        invariant Recent(buffer) == Recent(old(buffer) + [text])
        modifies `size, `buffer
        decreases |buffer|
      {
        size := size - (|buffer[0]| + 1);
        buffer := buffer[1..];
      }
    }

    method EmitOnce(chunks: seq<string>, digest: string)
      modifies `console
      ensures console == old(console) + Lines(ChunkLines(chunks) + [EndLine(|chunks|, digest)])
    {
      ghost var start, lines := console, ChunkLines(chunks);
      for i := 0 to |chunks|
        invariant console == start + Lines(lines[..i])
      {
        PrintLine(ChunkLine(i, chunks[i]));
        LinesMore(start, lines[..i], lines[i]);
        assert lines[..i + 1] == lines[..i] + [lines[i]];
      }
      assert lines[..|chunks|] == lines;
      PrintLine(EndLine(|chunks|, digest));
      LinesMore(start, lines, EndLine(|chunks|, digest));
    }

    method EmitRounds(d: Bytes, rounds: nat)
      modifies `console
      ensures console == old(console) + Repeated(Lines(Emission(scheme, d)), rounds)
    {
      ghost var start, copy := console, Lines(Emission(scheme, d));
      for round := 0 to rounds
        invariant console == start + Repeated(copy, round)
      {
        EmitOnce(Pieces(scheme.encode(d)), scheme.hash(d));
        RoundsMore(start, copy, round);
      }
    }

    /** Prints the result, more than once so that damage can be survived.
        Whatever the log held before, the host then decodes the document. */
    method Emit(d: Bytes, repeat: int)
      requires Valid()
      modifies `console, `stopped
      ensures Valid() && stopped
      ensures console == old(console) + Repeated(Lines(Emission(scheme, d)), if repeat < 1 then 1 else repeat)
      ensures Faithful(scheme, d) && CopyFits(scheme, d) ==> Delivered(scheme, d, console)
    {
      stopped := true;
      var rounds := if repeat < 1 then 1 else repeat;
      EmitRounds(d, rounds);
      LinesUnbroken(Emission(scheme, d));
      RoundsUnbroken(Lines(Emission(scheme, d)), rounds);
      if Faithful(scheme, d) && CopyFits(scheme, d) {
        EmissionLined(scheme, d);
        EmittedDecodesAll(scheme, d, old(console), rounds);
      }
    }
  }

  // ---- Writes and lines ----

  lemma {:induction false} LinesMore(start: seq<string>, texts: seq<string>, t: string)
    ensures start + Lines(texts) + Split(t) == start + Lines(texts + [t])
  {
    assert (texts + [t])[..|texts|] == texts;
  }

  lemma {:induction false} RoundsMore(start: seq<string>, copy: seq<string>, n: nat)
    ensures start + Repeated(copy, n) + copy == start + Repeated(copy, n + 1)
  {
  }

  lemma {:induction false} LinesUnbroken(texts: seq<string>)
    ensures Unbroken(Lines(texts))
  {
    if texts != [] {
      LinesUnbroken(texts[..|texts| - 1]);
      SplitOneLine(texts[|texts| - 1]);
    }
  }

  lemma {:induction false} RoundsUnbroken(lines: seq<string>, n: nat)
    requires Unbroken(lines)
    ensures Unbroken(Repeated(lines, n))
  {
    if n > 0 {
      RoundsUnbroken(lines, n - 1);
    }
  }

  lemma {:induction false} LinesPlain(texts: seq<string>)
    requires forall i | 0 <= i < |texts| :: OneLine(texts[i])
    ensures Lines(texts) == texts
  {
    if texts != [] {
      LinesPlain(texts[..|texts| - 1]);
      SplitLine(texts[|texts| - 1]);
    }
  }

  lemma {:induction false} EmissionLined<R>(x: Scheme<R>, d: Bytes)
    requires Faithful(x, d)
    ensures Lines(Emission(x, d)) == Emission(x, d)
  {
    EmissionParses(x, d);
    LinesPlain(Emission(x, d));
  }

  lemma {:induction false} QuietTwo(a: seq<string>, b: seq<string>)
    ensures Quiet(a + b) <==> Quiet(a) && Quiet(b)
  {
    if Quiet(a + b) {
      assert forall i | 0 <= i < |a| :: a[i] == (a + b)[i];
      assert forall i | 0 <= i < |b| :: b[i] == (a + b)[|a| + i];
    }
  }

  /** A status line's first line is never a result line; the others are what
      the message says. */
  lemma {:induction false} StatusLines(message: string)
    ensures Split(STATUS_MARK + message) == [STATUS_MARK + Split(message)[0]] + Split(message)[1..]
    ensures Quiet(Split(STATUS_MARK + message)) <==> Quiet(Split(message)[1..])
  {
    SplitAfter(STATUS_MARK, message);
    StatusIsOther(Split(message)[0]);
    QuietTwo([STATUS_MARK + Split(message)[0]], Split(message)[1..]);
  }

  // ---- What the host makes of it ----

  lemma {:induction false} MirrorIsNoise(text: string)
    ensures ParseLine(Shown(text)) == Other
  {
    MirroredIsOther(if |text| <= MIRROR_LINE then text else text[..MIRROR_LINE]);
  }

  lemma {:induction false} TranscriptTwo(a: seq<string>, b: seq<string>)
    ensures Transcript(a + b) == Transcript(a) + Transcript(b)
  {
    if a == [] {
      assert a + b == b;
    } else {
      assert (a + b)[1..] == a[1..] + b;
      TranscriptTwo(a[1..], b);
    }
  }

  lemma {:induction false} TranscriptEnds(lines: seq<string>)
    ensures Ended(Transcript(lines)) && (lines != [] ==> Transcript(lines) != "")
  {
    if lines != [] {
      TranscriptEnds(lines[1..]);
    }
  }

  lemma {:induction false} FirstParses(line: string, rest: string)
    requires OneLine(line)
    ensures ParseAll(Split(line + "\r\n" + rest)) == [ParseLine(line)] + ParseAll(Split(rest))
  {
    assert line + "\r\n" + rest == (line + "\r") + "\n" + rest;
    SplitAtNewline(line + "\r", rest);
    SplitLine(line + "\r");
    ParseTwo([line + "\r"], Split(rest));
    ParsedAt([line + "\r"], 0);
    Returned(line, "\r");
  }

  lemma {:induction false} ParseFirst(lines: seq<string>)
    requires lines != []
    ensures ParseAll(lines) == [ParseLine(lines[0])] + ParseAll(lines[1..])
  {
    ParseTwo([lines[0]], lines[1..]);
    ParsedAt([lines[0]], 0);
    assert lines == [lines[0]] + lines[1..];
  }

  /** The host reads each line of a log as it was printed. */
  lemma {:induction false} TranscriptParses(lines: seq<string>)
    requires forall i | 0 <= i < |lines| :: OneLine(lines[i])
    ensures ParseAll(Split(Transcript(lines))) == ParseAll(lines) + [Other]
  {
    if lines == [] {
      ParsedAt([""], 0);
    } else {
      FirstParses(lines[0], Transcript(lines[1..]));
      TranscriptParses(lines[1..]);
      ParseFirst(lines);
    }
  }

  lemma {:induction false} AfterEnded(head: string, tail: string) returns (earlier: seq<string>)
    requires Ended(head)
    ensures Split(head + tail) == earlier + Split(tail)
  {
    if head == "" {
      earlier := [];
      assert head + tail == tail;
    } else {
      var front := head[..|head| - 1];
      earlier := Split(front);
      assert head + tail == front + "\n" + tail;
      SplitAtNewline(front, tail);
    }
  }

  // ---- Before the result is printed ----

  lemma {:induction false} QuietParsed(lines: seq<string>)
    ensures Quiet(lines) <==> forall i | 0 <= i < |lines| :: ParseAll(lines)[i] == Other
  {
    forall i | 0 <= i < |lines|
      ensures ParseAll(lines)[i] == ParseLine(lines[i])
    {
      ParsedAt(lines, i);
    }
  }

  lemma {:induction false} TranscriptQuiet(console: seq<string>)
    requires Unbroken(console)
    ensures Quiet(Split(Transcript(console))) <==> Quiet(console)
  {
    TranscriptParses(console);
    QuietParsed(console);
    QuietParsed(Split(Transcript(console)));
    var parsed := ParseAll(console);
    assert forall i | 0 <= i < |console| :: (parsed + [Other])[i] == parsed[i];
  }

  /** A log is free of result lines if and only if both the text before the
      console and the console are. */
  lemma {:induction false} LogQuiet(boot: string, console: seq<string>)
    requires Ended(boot) && Unbroken(console)
    ensures Quiet(Split(boot + Transcript(console))) <==> Quiet(Split(boot)) && Quiet(console)
  {
    if boot == "" {
      TranscriptQuiet(console);
      assert boot + Transcript(console) == Transcript(console);
      SplitLine("");
    } else {
      assert boot == boot[..|boot| - 1] + "\n";
      LogQuietAfter(boot[..|boot| - 1], console);
    }
  }

  lemma {:induction false} LogQuietAfter(front: string, console: seq<string>)
    requires Unbroken(console)
    ensures Quiet(Split(front + "\n" + Transcript(console))) <==> Quiet(Split(front + "\n")) && Quiet(console)
  {
    TranscriptQuiet(console);
    QuietJoined(front, Transcript(console));
    QuietJoined(front, "");
    SplitLine("");
    assert front + "\n" == front + "\n" + "";
  }

  lemma {:induction false} QuietJoined(a: string, b: string)
    ensures Quiet(Split(a + "\n" + b)) <==> Quiet(Split(a)) && Quiet(Split(b))
  {
    SplitAtNewline(a, b);
    QuietTwo(Split(a), Split(b));
  }

  /** Until the result is printed the host finds none: the log of a quiet
      console is the missing result it should be. */
  lemma {:induction false} NothingUntilEmitted<R(!new)>(x: Scheme<R>, boot: string, console: seq<string>)
    requires Ended(boot) && Quiet(Split(boot)) && Quiet(console) && Unbroken(console)
    ensures var log := boot + Transcript(console);
            && ParseTaskResult(x, log).Failed?
            && (|log| <= WINDOW || !RawMark(log) ==> ParseTaskResult(x, log) == Failed(NoResult))
  {
    LogQuiet(boot, console);
    QuietFails(x, boot + Transcript(console));
  }

  /** A status keeps the log free of result lines if and only if every line of
      its message after the first is none. */
  lemma {:induction false} StatusExactly(boot: string, console: seq<string>, message: string)
    requires Ended(boot) && Unbroken(console)
    ensures Quiet(Split(boot + Transcript(console + Split(STATUS_MARK + message))))
       <==> Quiet(Split(boot + Transcript(console))) && Quiet(Split(message)[1..])
  {
    var lines := Split(STATUS_MARK + message);
    SplitOneLine(STATUS_MARK + message);
    StatusLines(message);
    LogQuiet(boot, console);
    LogQuiet(boot, console + lines);
    QuietTwo(console, lines);
  }

  // ---- After it is printed ----

  lemma {:induction false} EmissionParses<R>(x: Scheme<R>, d: Bytes)
    requires Faithful(x, d)
    ensures var pieces, lines := Pieces(x.encode(d)), Emission(x, d);
            && ParseAll(lines) == ParseAll(ChunkLines(pieces)) + [End(|pieces|, x.hash(d))]
            && Intact(ParseAll(ChunkLines(pieces)), pieces)
            && pieces != [] && (forall i | 0 <= i < |lines| :: OneLine(lines[i]))
            && END_MARK <= EndLine(|pieces|, x.hash(d))
  {
    var pieces := Pieces(x.encode(d));
    PiecesText(x.encode(d));
    PiecesJoin(x.encode(d));
    PiecesCount(x.encode(d), MAX_CHUNKS);
    ChunksParsed(pieces);
    EndRoundTrip(|pieces|, x.hash(d));
    ParseTwo(ChunkLines(pieces), [EndLine(|pieces|, x.hash(d))]);
    ParsedAt([EndLine(|pieces|, x.hash(d))], 0);
    forall i | 0 <= i < |pieces|
      ensures OneLine(ChunkLines(pieces)[i])
    {
      ChunkRoundTrip(i, pieces[i]);
    }
  }

  lemma {:induction false} NoEndSkipped<R>(x: Scheme<R>, lines: seq<Line>, later: seq<Line>, first: Option<Failure>)
    requires forall i | 0 <= i < |later| :: !later[i].End?
    ensures ParseLines(x, lines + later, first) == ParseLines(x, lines, first)
    decreases |later|
  {
    if later == [] {
      assert lines + later == lines;
    } else {
      var front := later[..|later| - 1];
      assert (lines + later)[..|lines + later| - 1] == lines + front;
      NoEndSkipped(x, lines, front, first);
    }
  }

  /** The copy printed last, after any lines at all. */
  lemma {:induction false} LastCopyDecodes<R>(x: Scheme<R>, d: Bytes, earlier: seq<Line>, copy: seq<Line>, later: seq<Line>)
    requires Faithful(x, d) && Intact(copy, Pieces(x.encode(d))) && forall i | 0 <= i < |later| :: !later[i].End?
    ensures ParseLines(x, earlier + copy + [End(|Pieces(x.encode(d))|, x.hash(d))] + later, None) == Got(x.read(d).value)
  {
    var end := End(|Pieces(x.encode(d))|, x.hash(d));
    var front := earlier + copy + [end];
    NoEndSkipped(x, front, later, None);
    assert front[..|front| - 1] == earlier + copy && front[|front| - 1] == end;
    IntactCopy(x, earlier, copy, d);
  }

  lemma {:induction false} SeenBefore(head: string, chunks: string, end: string, after: string) returns (w: nat)
    requires chunks != "" && Ended(chunks) && |chunks| <= WINDOW + 1 && OneLine(end) && END_MARK <= end && Trailing(after)
    ensures w <= |head| && SeenFrom(head + (chunks + (end + "\r\n")) + after, w)
  {
    var a, tail := head + chunks[..|chunks| - 1], end + "\r\n" + after;
    assert head + (chunks + (end + "\r\n")) + after == a + "\n" + tail;
    assert tail == (end + "\r") + "\n" + after;
    SplitAtNewline(end + "\r", after);
    SplitLine(end + "\r");
    LastMark(a, tail);
    w := Larger(0, |a| - WINDOW);
  }

  lemma {:induction false} EmissionText<R>(x: Scheme<R>, d: Bytes)
    ensures var pieces := Pieces(x.encode(d));
            Transcript(Emission(x, d)) == Transcript(ChunkLines(pieces)) + (EndLine(|pieces|, x.hash(d)) + "\r\n")
  {
    var pieces := Pieces(x.encode(d));
    var end := EndLine(|pieces|, x.hash(d));
    TranscriptTwo(ChunkLines(pieces), [end]);
    assert Transcript([end]) == end + "\r\n" + Transcript([]);
  }

  /** Where the host starts to read a log whose last copy is whole. */
  lemma {:induction false} LastCopySeen<R>(x: Scheme<R>, d: Bytes, head: string, after: string) returns (w: nat)
    requires Faithful(x, d) && CopyFits(x, d) && Trailing(after)
    ensures w <= |head| && SeenFrom(head + Transcript(Emission(x, d)) + after, w)
  {
    var pieces := Pieces(x.encode(d));
    var end := EndLine(|pieces|, x.hash(d));
    assert pieces != [] && OneLine(end) && END_MARK <= end by {
      EmissionParses(x, d);
      assert Emission(x, d)[|pieces|] == end;
    }
    TranscriptEnds(ChunkLines(pieces));
    EmissionText(x, d);
    w := SeenBefore(head, Transcript(ChunkLines(pieces)), end, after);
  }

  lemma {:induction false} CutFront(a: string, b: string, c: string, w: nat)
    requires w <= |a|
    ensures (a + b + c)[w..] == a[w..] + (b + c)
  {
  }

  lemma {:induction false} LastEmissionDecodes<R>(x: Scheme<R>, d: Bytes, head: string, after: string)
    requires Faithful(x, d) && CopyFits(x, d) && Ended(head) && Trailing(after)
    ensures ParseTaskResult(x, head + Transcript(Emission(x, d)) + after) == Got(x.read(d).value)
  {
    var log, tail := head + Transcript(Emission(x, d)) + after, Transcript(Emission(x, d)) + after;
    var w := LastCopySeen(x, d, head, after);
    SeenWindow(x, log, w);
    CutFront(head, Transcript(Emission(x, d)), after, w);
    var earlier := AfterEnded(head[w..], tail);
    ParseTwo(earlier, Split(tail));
    EmissionReads(x, d, ParseAll(earlier), after);
  }

  lemma {:induction false} EmissionSplits<R>(x: Scheme<R>, d: Bytes, after: string)
    requires Faithful(x, d)
    ensures ParseAll(Split(Transcript(Emission(x, d)) + after))
         == ParseAll(ChunkLines(Pieces(x.encode(d)))) + [End(|Pieces(x.encode(d))|, x.hash(d))] + ParseAll(Split(after))
  {
    EmissionParses(x, d);
    TranscriptParsesBefore(Emission(x, d), after);
  }

  lemma {:induction false} TranscriptBefore(lines: seq<string>, after: string)
    requires lines != []
    ensures Transcript(lines) + after == lines[0] + "\r\n" + (Transcript(lines[1..]) + after)
  {
  }

  lemma {:induction false} ThreeParts<T>(a: seq<T>, b: seq<T>, c: seq<T>)
    ensures a + (b + c) == a + b + c
  {
  }

  lemma {:induction false} TranscriptParsesBefore(lines: seq<string>, after: string)
    requires Unbroken(lines)
    ensures ParseAll(Split(Transcript(lines) + after)) == ParseAll(lines) + ParseAll(Split(after))
  {
    if lines == [] {
      NoneBefore(after);
    } else {
      StepBefore(lines, after);
      TranscriptParsesBefore(lines[1..], after);
      ParseFirst(lines);
      ThreeParts([ParseLine(lines[0])], ParseAll(lines[1..]), ParseAll(Split(after)));
    }
  }

  lemma {:induction false} NoneBefore(after: string)
    ensures ParseAll(Split(Transcript([]) + after)) == ParseAll([]) + ParseAll(Split(after))
  {
    assert Transcript([]) + after == after;
  }

  lemma {:induction false} StepBefore(lines: seq<string>, after: string)
    requires lines != [] && OneLine(lines[0])
    ensures ParseAll(Split(Transcript(lines) + after)) == [ParseLine(lines[0])] + ParseAll(Split(Transcript(lines[1..]) + after))
  {
    TranscriptBefore(lines, after);
    FirstParses(lines[0], Transcript(lines[1..]) + after);
  }

  lemma {:induction false} EmissionReads<R>(x: Scheme<R>, d: Bytes, earlier: seq<Line>, after: string)
    requires Faithful(x, d) && Trailing(after)
    ensures ParseLines(x, earlier + ParseAll(Split(Transcript(Emission(x, d)) + after)), None) == Got(x.read(d).value)
  {
    EmissionSplits(x, d, after);
    TrailingParses(after);
    assert Intact(ParseAll(ChunkLines(Pieces(x.encode(d)))), Pieces(x.encode(d))) by {
      EmissionParses(x, d);
    }
    FourParts(earlier, ParseAll(ChunkLines(Pieces(x.encode(d)))), [End(|Pieces(x.encode(d))|, x.hash(d))], ParseAll(Split(after)));
    LastCopyDecodes(x, d, earlier, ParseAll(ChunkLines(Pieces(x.encode(d)))), ParseAll(Split(after)));
  }

  lemma {:induction false} FourParts<T>(a: seq<T>, b: seq<T>, c: seq<T>, d: seq<T>)
    ensures a + (b + c + d) == a + b + c + d
  {
  }

  lemma {:induction false} TrailingParses(after: string)
    requires Trailing(after)
    ensures forall i | 0 <= i < |Split(after)| :: !ParseAll(Split(after))[i].End?
  {
    forall i | 0 <= i < |Split(after)|
      ensures !ParseAll(Split(after))[i].End?
    {
      ParsedAt(Split(after), i);
    }
  }

  /** Whatever the log held before, what the runner printed last is what the
      host decodes from the log, whatever else a shutdown prints after it. */
  lemma {:induction false} EmittedDecodes<R>(x: Scheme<R>, d: Bytes, boot: string, before: seq<string>, n: nat, after: string)
    requires Faithful(x, d) && CopyFits(x, d) && n >= 1 && Ended(boot) && Trailing(after)
    ensures ParseTaskResult(x, boot + Transcript(before + Repeated(Emission(x, d), n)) + after) == Got(x.read(d).value)
  {
    var rest := before + Repeated(Emission(x, d), n - 1);
    assert before + Repeated(Emission(x, d), n) == rest + Emission(x, d);
    TranscriptTwo(rest, Emission(x, d));
    ThreeParts(boot, Transcript(rest), Transcript(Emission(x, d)));
    EndedTwo(boot, rest);
    LastEmissionDecodes(x, d, boot + Transcript(rest), after);
  }

  lemma {:induction false} EndedTwo(boot: string, lines: seq<string>)
    requires Ended(boot)
    ensures Ended(boot + Transcript(lines))
  {
    TranscriptEnds(lines);
    assert Transcript(lines) == "" ==> boot + Transcript(lines) == boot;
  }

  lemma {:induction false} EmittedDecodesAll<R>(x: Scheme<R>, d: Bytes, before: seq<string>, n: nat)
    requires Faithful(x, d) && CopyFits(x, d) && n >= 1
    ensures Delivered(x, d, before + Repeated(Emission(x, d), n))
  {
    forall boot, after | Ended(boot) && Trailing(after)
      ensures ParseTaskResult(x, boot + Transcript(before + Repeated(Emission(x, d), n)) + after) == Got(x.read(d).value)
    {
      EmittedDecodes(x, d, boot, before, n, after);
    }
  }

  // ---- A status that is not quiet ----

  /** The status before a failed command is tried again quotes what the command
      printed. */
  function RetryStatus(what: string, error: string): string {
    what + " failed, retrying: " + if |error| <= 200 then error else error[..200]
  }

  lemma {:induction false} LastTwoLines(a: string, b: string, c: string)
    requires OneLine(b) && OneLine(c)
    ensures Split(a + "\n" + b + "\n" + c) == Split(a) + [b, c]
  {
    SplitAtNewline(a + "\n" + b, c);
    SplitAtNewline(a, b);
    SplitLine(b);
    SplitLine(c);
  }

  lemma {:induction false} RetryLines(what: string, head: string, chunk: string, end: string)
    requires OneLine(chunk) && OneLine(end) && |head + "\n" + chunk + "\n" + end| <= 200
    ensures Split(STATUS_MARK + RetryStatus(what, head + "\n" + chunk + "\n" + end))
         == Split(STATUS_MARK + (what + " failed, retrying: " + head)) + [chunk, end]
  {
    QuotedText(STATUS_MARK, what, " failed, retrying: ", head, chunk, end);
    LastTwoLines(STATUS_MARK + (what + " failed, retrying: " + head), chunk, end);
  }

  /** If a failed command printed the lines of a short result, the status
      alone delivers it, before the runner has emitted anything. */
  lemma {:induction false} RetryDelivers<R>(x: Scheme<R>, d: Bytes, console: seq<string>, what: string, head: string)
    requires Faithful(x, d) && |x.encode(d)| <= CHUNK_SIZE
    requires |head + "\n" + ChunkLine(0, x.encode(d)) + "\n" + EndLine(1, x.hash(d))| <= 200
    ensures var error := head + "\n" + ChunkLine(0, x.encode(d)) + "\n" + EndLine(1, x.hash(d));
            && !Quiet(Split(RetryStatus(what, error))[1..])
            && Delivered(x, d, console + Split(STATUS_MARK + RetryStatus(what, error)))
  {
    var chunk, end := ChunkLine(0, x.encode(d)), EndLine(1, x.hash(d));
    var message, first := RetryStatus(what, head + "\n" + chunk + "\n" + end), Split(STATUS_MARK + (what + " failed, retrying: " + head));
    ShortEmission(x, d);
    RetryLines(what, head, chunk, end);
    StatusDelivers(x, d, console, message, first);
  }

  lemma {:induction false} StatusDelivers<R>(x: Scheme<R>, d: Bytes, console: seq<string>, message: string, first: seq<string>)
    requires Faithful(x, d) && |x.encode(d)| <= CHUNK_SIZE
    requires Split(STATUS_MARK + message) == first + [ChunkLine(0, x.encode(d)), EndLine(1, x.hash(d))]
    ensures !Quiet(Split(message)[1..]) && Delivered(x, d, console + Split(STATUS_MARK + message))
  {
    var copy := [ChunkLine(0, x.encode(d)), EndLine(1, x.hash(d))];
    ShortEmission(x, d);
    SmallCopyFits(x, d);
    ThreeParts(console, first, copy);
    EmittedDecodesAll(x, d, console + first, 1);
    StatusLines(message);
    EndsLoud(first + copy, EndLine(1, x.hash(d)));
  }

  lemma {:induction false} QuotedText(mark: string, what: string, words: string, head: string, chunk: string, end: string)
    ensures mark + (what + words + (head + "\n" + chunk + "\n" + end)) == mark + (what + words + head) + "\n" + chunk + "\n" + end
  {
  }

  lemma {:induction false} EndsLoud(lines: seq<string>, end: string)
    requires lines != [] && lines[|lines| - 1] == end && ParseLine(end) != Other
    ensures !Quiet(lines)
  {
  }

  lemma {:induction false} ShortEmission<R>(x: Scheme<R>, d: Bytes)
    requires Faithful(x, d) && |x.encode(d)| <= CHUNK_SIZE
    ensures var chunk, end := ChunkLine(0, x.encode(d)), EndLine(1, x.hash(d));
            && Repeated(Emission(x, d), 1) == [chunk, end] && OneLine(chunk) && OneLine(end) && ParseLine(end) != Other
  {
    var lines := Emission(x, d);
    assert Pieces(x.encode(d)) == [x.encode(d)];
    EmissionParses(x, d);
    assert OneLine(lines[0]) && OneLine(lines[1]);
    EndRoundTrip(1, x.hash(d));
    assert Repeated(lines, 0) + lines == lines;
  }

  // ---- How large a copy can be ----

  const LARGEST_ENCODING := 3954688

  lemma {:induction false} TranscriptBounded(lines: seq<string>, most: nat)
    requires forall i | 0 <= i < |lines| :: |lines[i]| <= most
    ensures |Transcript(lines)| <= (most + 2) * |lines|
  {
    if lines != [] {
      TranscriptBounded(lines[1..], most);
      assert (most + 2) * |lines| == (most + 2) * |lines[1..]| + (most + 2);
    }
  }

  lemma {:induction false} SmallCopyFits<R>(x: Scheme<R>, d: Bytes)
    requires |x.encode(d)| <= LARGEST_ENCODING
    ensures CopyFits(x, d)
  {
    var pieces := Pieces(x.encode(d));
    PiecesCount(x.encode(d), LARGEST_ENCODING / CHUNK_SIZE);
    PiecesJoin(x.encode(d));
    var lines := ChunkLines(pieces);
    forall i | 0 <= i < |lines|
      ensures |lines[i]| <= 541
    {
      DecimalShort(i);
      assert |CHUNK_MARK| == 23;
    }
    TranscriptBounded(lines, 541);
  }

  const PATCH_LIMIT := 393216
  const DIFFSTAT_LIMIT := 16384
  const ERROR_LIMIT := 16000

  /** The runner's own limits, in bytes: the error is cut at 4000 characters,
      branch and commit are Git's, and the URL is one GitHub returned. */
  predicate WithinLimits(r: Bound.Document) {
    && |r.output| <= OUTPUT_LIMIT && |r.patch| <= PATCH_LIMIT && |r.diffStat| <= DIFFSTAT_LIMIT && |r.error| <= ERROR_LIMIT
    && |r.branch| <= 200 && |r.commit| <= 64 && |r.url| <= 2048
  }

  /** The length of the runner's JSON text at most: all keys, the longest
      words, and each text as the JSON library quotes it. */
  function MostBytes(l: Bound.Library, r: Bound.Document): nat {
    10 + 11 + 12 + l.number(r.exitCode) + 11 + 5 + 10 + 5 + 13 + 5 + 1
    + 10 + l.quoted(r.output) + 9 + l.quoted(r.error) + 10 + l.quoted(r.commit) + 10 + l.quoted(r.branch)
    + 12 + l.quoted(r.diffStat) + 18 + l.quoted(r.url) + 9 + l.quoted(r.patch)
  }

  /** base64 with padding. */
  function EncodedLength(n: nat): nat {
    4 * ((n + 2) / 3)
  }

  /** Every document within the runner's limits, however much of it must be
      escaped, makes a copy that the host reads whole. */
  lemma {:induction false} RunnerCopyFits<R>(l: Bound.Library, x: Scheme<R>, r: Bound.Document, d: Bytes)
    requires Bound.Sane(l) && WithinLimits(r) && |d| <= MostBytes(l, r) && |x.encode(d)| == EncodedLength(|d|)
    ensures CopyFits(x, d)
  {
    assert l.number(r.exitCode) <= 20;
    assert l.quoted(r.output) <= 6 * OUTPUT_LIMIT + 2 && l.quoted(r.patch) <= 6 * PATCH_LIMIT + 2;
    assert l.quoted(r.diffStat) <= 6 * DIFFSTAT_LIMIT + 2 && l.quoted(r.error) <= 6 * ERROR_LIMIT + 2;
    assert l.quoted(r.branch) <= 6 * 200 + 2 && l.quoted(r.commit) <= 6 * 64 + 2 && l.quoted(r.url) <= 6 * 2048 + 2;
    assert |d| <= 2936500;
    SmallCopyFits(x, d);
  }

  // ---- What is heard of a console ----

  lemma {:induction false} HeardOne(end: Line, heard: seq<Line>) returns (k: nat)
    requires Woven([end], heard) && end != Other
    ensures k < |heard| && heard[k] == end && forall i | 0 <= i < |heard| && i != k :: heard[i] == Other
    decreases |heard|
  {
    if heard[0] == end && Woven([], heard[1..]) {
      WovenFrom([], heard[1..]);
      assert [end][1..] == [];
      k := 0;
    } else {
      assert [end][1..] == [];
      var j := HeardOne(end, heard[1..]);
      k := j + 1;
    }
  }

  lemma {:induction false} HeardMore(copy: seq<Line>, heard: seq<Line>, others: seq<Line>)
    requires Woven(copy, heard) && forall i | 0 <= i < |others| :: others[i] == Other
    ensures Woven(copy, heard + others)
    decreases |heard|
  {
    if heard == [] {
      assert heard + others == others;
      OthersHeard(others);
    } else {
      assert (heard + others)[1..] == heard[1..] + others;
      if copy != [] && heard[0] == copy[0] && Woven(copy[1..], heard[1..]) {
        HeardMore(copy[1..], heard[1..], others);
      } else {
        HeardMore(copy, heard[1..], others);
      }
    }
  }

  lemma {:induction false} OthersHeard(others: seq<Line>)
    requires forall i | 0 <= i < |others| :: others[i] == Other
    ensures Woven([], others)
    decreases |others|
  {
    if others != [] {
      OthersHeard(others[1..]);
    }
  }

  /** What is heard of a copy and its END line ends the same way. */
  lemma {:induction false} HeardCopy(chunks: seq<Line>, end: Line, heard: seq<Line>) returns (k: nat)
    requires Woven(chunks + [end], heard) && end != Other
    ensures k < |heard| && heard[k] == end && Woven(chunks, heard[..k])
    ensures forall i | k < i < |heard| :: heard[i] == Other
  {
    var j := WovenParts(chunks, [end], heard);
    var i := HeardOne(end, heard[j..]);
    k := j + i;
    HeardMore(chunks, heard[..j], heard[j..][..i]);
    assert heard[..k] == heard[..j] + heard[j..][..i];
    assert forall m | k < m < |heard| :: heard[m] == heard[j..][m - j];
  }

  lemma {:induction false} CutAt<T>(s: seq<T>, j: nat, k: nat)
    requires j <= |s| && k < |s[j..]|
    ensures s == s[..j] + s[j..][..k] + [s[j..][k]] + s[j..][k + 1..]
  {
  }

  /** The last copy of a console in what is heard of it. */
  lemma {:induction false} HeardEmission<R>(x: Scheme<R>, d: Bytes, before: seq<string>, n: nat, heard: seq<Line>)
    returns (earlier: seq<Line>, copy: seq<Line>, later: seq<Line>)
    requires Faithful(x, d) && n >= 1 && Woven(ParseAll(before + Repeated(Emission(x, d), n)), heard)
    ensures heard == earlier + copy + [End(|Pieces(x.encode(d))|, x.hash(d))] + later
    ensures Woven(ParseAll(ChunkLines(Pieces(x.encode(d)))), copy)
    ensures forall i | 0 <= i < |later| :: later[i] == Other
  {
    var pieces := Pieces(x.encode(d));
    var chunks, end := ParseAll(ChunkLines(pieces)), End(|pieces|, x.hash(d));
    var rest := before + Repeated(Emission(x, d), n - 1);
    assert before + Repeated(Emission(x, d), n) == rest + Emission(x, d);
    ParseTwo(rest, Emission(x, d));
    assert ParseAll(Emission(x, d)) == chunks + [end] by {
      EmissionParses(x, d);
    }
    var j := WovenParts(ParseAll(rest), chunks + [end], heard);
    var k := HeardCopy(chunks, end, heard[j..]);
    CutAt(heard, j, k);
    earlier, copy, later := heard[..j], heard[j..][..k], heard[j..][k + 1..];
  }

  lemma {:induction false} HeardIntact<R>(x: Scheme<R>, d: Bytes, copy: seq<Line>)
    requires Faithful(x, d) && Woven(ParseAll(ChunkLines(Pieces(x.encode(d)))), copy)
    ensures Intact(copy, Pieces(x.encode(d)))
  {
    PiecesText(x.encode(d));
    PiecesCount(x.encode(d), MAX_CHUNKS);
    WovenIntact(Pieces(x.encode(d)), copy);
  }

  /** Lines in which a console is heard, each perhaps behind an erased status
      line and with other writers between them, decode to the document
      whatever was printed before the result. */
  lemma {:induction false} ConsoleReads<R>(x: Scheme<R>, d: Bytes, before: seq<string>, n: nat, heard: seq<Line>)
    requires Faithful(x, d) && n >= 1 && Woven(ParseAll(before + Repeated(Emission(x, d), n)), heard)
    ensures ParseLines(x, heard, None) == Got(x.read(d).value)
  {
    var earlier, copy, later := HeardEmission(x, d, before, n, heard);
    HeardIntact(x, d, copy);
    LastCopyDecodes(x, d, earlier, copy, later);
  }

  /** So a log within 4 MiB yields the document if and only if some END line
      follows a newline directly. */
  lemma {:induction false} ConsoleDecodes<R(!new)>(x: Scheme<R>, d: Bytes, before: seq<string>, n: nat, log: string)
    requires Faithful(x, d) && n >= 1 && |log| <= WINDOW
    requires Woven(ParseAll(before + Repeated(Emission(x, d), n)), ParseAll(Split(log)))
    ensures ParseTaskResult(x, log) == Got(x.read(d).value) <==> RawMark(log)
  {
    if RawMark(log) {
      ShortSeen(log);
      SeenWindow(x, log, 0);
      assert log[0..] == log;
      ConsoleReads(x, d, before, n, ParseAll(Split(log)));
    } else {
      NotSeen(x, log);
    }
  }

  /** And a log of any length, if that is heard in the part the host reads. */
  lemma {:induction false} ConsoleDecodesFrom<R(!new)>(x: Scheme<R>, d: Bytes, before: seq<string>, n: nat, log: string, w: nat)
    requires Faithful(x, d) && n >= 1 && SeenFrom(log, w) && w <= |log|
    requires Woven(ParseAll(before + Repeated(Emission(x, d), n)), ParseAll(Split(log[w..])))
    ensures ParseTaskResult(x, log) == Got(x.read(d).value)
  {
    SeenWindow(x, log, w);
    ConsoleReads(x, d, before, n, ParseAll(Split(log[w..])));
  }
}
