/** When the host finds a result at all: ParseTaskResult of
    internal/host/task.go searches the log for an END marker first, and reads
    only the 4 MiB before the last one. */
module Found {
  import opened Model
  import opened Console
  import opened Codec
  import opened RoundTrip

  // ---- Occurrences ----

  predicate At(s: string, p: string, i: int) {
    0 <= i <= |s| - |p| && s[i..i + |p|] == p
  }

  ghost predicate Occurs(s: string, p: string) {
    exists i :: At(s, p, i)
  }

  ghost predicate LastAt(s: string, p: string, i: int) {
    At(s, p, i) && forall j | At(s, p, j) :: j <= i
  }

  lemma {:induction false} LastIndexFinds(s: string, p: string)
    requires p != ""
    ensures LastIndex(s, p).Some? <==> Occurs(s, p)
    ensures LastIndex(s, p).Some? ==> LastAt(s, p, LastIndex(s, p).value)
    decreases |s|
  {
    if |s| < |p| {
      assert forall i :: !At(s, p, i);
    } else if s[|s| - |p|..] == p {
      assert At(s, p, |s| - |p|);
    } else {
      var front := s[..|s| - 1];
      LastIndexFinds(front, p);
      forall i
        ensures At(s, p, i) <==> At(front, p, i)
      {
        if 0 <= i < |s| - |p| {
          assert s[i..i + |p|] == front[i..i + |p|];
        } else if i == |s| - |p| {
          assert s[i..i + |p|] == s[i..];
        }
      }
    }
  }

  /** Where reading starts: 4 MiB before the last END marker at the start of a
      line, or at the start of a log that begins with the only one. */
  ghost predicate SeenFrom(log: string, w: nat) {
    || (exists i :: LastAt(log, MARKED_LINE, i) && w == Larger(0, i - WINDOW))
    || (!Occurs(log, MARKED_LINE) && END_MARK <= log && w == 0)
  }

  /** Some END marker stands at the very start of the log or of a line. */
  ghost predicate RawMark(log: string) {
    Occurs(log, MARKED_LINE) || END_MARK <= log
  }

  lemma {:induction false} WindowIs(log: string)
    ensures Window(log).Some? <==> RawMark(log)
    ensures Window(log).Some? ==> exists w: nat :: w <= |log| && SeenFrom(log, w) && Window(log) == Some(log[w..])
    ensures forall w: nat | SeenFrom(log, w) :: w <= |log| && Window(log) == Some(log[w..])
  {
    LastIndexFinds(log, MARKED_LINE);
    forall i, j | LastAt(log, MARKED_LINE, i) && LastAt(log, MARKED_LINE, j)
      ensures i == j
    {
    }
    if LastIndex(log, MARKED_LINE).Some? {
      var i := LastIndex(log, MARKED_LINE).value;
      assert SeenFrom(log, Larger(0, i - WINDOW));
    } else if END_MARK <= log {
      assert SeenFrom(log, 0) && log[0..] == log;
    }
  }

  /** The last mark is the one after which no line starts with another. */
  lemma {:induction false} LastMark(a: string, tail: string)
    requires END_MARK <= tail && forall i | 1 <= i < |Split(tail)| :: !(END_MARK <= Split(tail)[i])
    ensures LastAt(a + "\n" + tail, MARKED_LINE, |a|)
  {
    var log := a + "\n" + tail;
    assert log[|a|..|a| + |MARKED_LINE|] == "\n" + tail[..|END_MARK|];
    forall j | At(log, MARKED_LINE, j)
      ensures j <= |a|
    {
      if j > |a| {
        MarkedAfter(a, tail, j - |a| - 1);
      }
    }
  }

  /** An occurrence behind a prefix. */
  lemma {:induction false} AtBehind(front: string, tail: string, p: string, k: nat)
    requires At(front + tail, p, |front| + k)
    ensures At(tail, p, k)
  {
    assert (front + tail)[|front| + k..|front| + k + |p|] == tail[k..k + |p|];
  }

  lemma {:induction false} AtNewline(tail: string, mark: string, k: nat)
    requires At(tail, "\n" + mark, k)
    ensures k < |tail| && tail[k] == '\n' && mark <= tail[k + 1..]
  {
    assert tail[k..k + 1 + |mark|][0] == tail[k];
    assert tail[k + 1..][..|mark|] == tail[k..k + 1 + |mark|][1..];
  }

  lemma {:induction false} EndMarkPlain()
    ensures OneLine(END_MARK)
  {
    assert |END_MARK| == 27;
  }

  lemma {:induction false} MarkedAfter(a: string, tail: string, k: nat)
    requires At(a + "\n" + tail, MARKED_LINE, |a| + 1 + k)
    ensures exists i :: 1 <= i < |Split(tail)| && END_MARK <= Split(tail)[i]
  {
    AtBehind(a + "\n", tail, MARKED_LINE, k);
    AtNewline(tail, END_MARK, k);
    SplitBefore(tail, k + 1);
    EndMarkPlain();
    SplitPrefix(END_MARK, tail[k + 1..]);
    assert Split(tail)[|Split(tail[..k])|] == Split(tail[k + 1..])[0];
  }

  lemma {:induction false} SplitBefore(text: string, p: nat)
    requires 0 < p <= |text| && text[p - 1] == '\n'
    ensures Split(text) == Split(text[..p - 1]) + Split(text[p..])
  {
    assert text == text[..p - 1] + "\n" + text[p..];
    SplitAtNewline(text[..p - 1], text[p..]);
  }

  // ---- A copy that can be read ----

  /** The lines up to the first END line hold the copy it speaks of. */
  ghost predicate ReadsTo<R>(x: Scheme<R>, lines: seq<Line>, m: nat) {
    && m < |lines| && lines[m].End? && (forall i | 0 <= i < m :: !lines[i].End?)
    && TaskCopy(x, lines[..m], lines[m].count, lines[m].digest).Got?
  }

  ghost predicate CopyFrom<R>(x: Scheme<R>, tail: string) {
    exists m :: ReadsTo(x, ParseAll(Split(tail)), m)
  }

  /** A whole copy within the part of the log from w on, starting with some
      line; the first line may be what w leaves of one. */
  ghost predicate CopyAt<R>(x: Scheme<R>, log: string, w: nat, p: nat) {
    w <= p <= |log| && (p == w || log[p - 1] == '\n') && CopyFrom(x, log[p..])
  }

  predicate ReadsAt<R(!new)>(x: Scheme<R>, lines: seq<Line>, j: int) {
    0 <= j < |lines| && lines[j].End? && TaskCopy(x, lines[..j], lines[j].count, lines[j].digest).Got?
  }

  lemma {:induction false} ParseFinds<R(!new)>(x: Scheme<R>, lines: seq<Line>, first: Option<Failure>)
    ensures ParseLines(x, lines, first).Got? <==> exists j :: ReadsAt(x, lines, j)
    decreases |lines|
  {
    if lines != [] {
      var n := |lines| - 1;
      var front := lines[..n];
      forall j | 0 <= j < n
        ensures ReadsAt(x, lines, j) <==> ReadsAt(x, front, j)
      {
        assert front[..j] == lines[..j];
      }
      if ReadsAt(x, lines, n) {
      } else if lines[n].End? {
        var copy := TaskCopy(x, front, lines[n].count, lines[n].digest);
        ParseFinds(x, front, if first.Some? then first else Some(copy.failure));
      } else {
        ParseFinds(x, front, first);
      }
    }
  }

  lemma {:induction false} GatherStops(before: seq<Line>, lines: seq<Line>, chunks: seq<string>)
    requires before == [] || before[|before| - 1].End?
    ensures Gather(before + lines, chunks) == Gather(lines, chunks)
    decreases |lines|
  {
    if lines == [] {
      assert before + lines == before;
    } else {
      var n := |lines| - 1;
      assert (before + lines)[..|before + lines| - 1] == before + lines[..n];
      match lines[n]
      case End(_, _) =>
      case Chunk(k, text) => GatherStops(before, lines[..n], if Fresh(chunks, k, text) then chunks[k := text] else chunks);
      case Other => GatherStops(before, lines[..n], chunks);
    }
  }

  /** What is complete already takes nothing from further back. */
  lemma {:induction false} GatherFull(before: seq<Line>, lines: seq<Line>, chunks: seq<string>)
    requires "" !in Gather(lines, chunks)
    ensures Gather(before + lines, chunks) == Gather(lines, chunks)
    decreases |lines|
  {
    if lines == [] {
      assert before + lines == before;
      FullStays(before, chunks);
    } else {
      var n := |lines| - 1;
      assert (before + lines)[..|before + lines| - 1] == before + lines[..n];
      match lines[n]
      case End(_, _) =>
      case Chunk(k, text) => GatherFull(before, lines[..n], if Fresh(chunks, k, text) then chunks[k := text] else chunks);
      case Other => GatherFull(before, lines[..n], chunks);
    }
  }

  // ---- Which chunk, which copy ----

  /** A readable chunk of that index, with no END line after it. */
  predicate ChunkAt(lines: seq<Line>, k: nat, j: int) {
    && 0 <= j < |lines| && lines[j].Chunk? && lines[j].index == k && 0 < |lines[j].text| <= 1024
    && forall i | j < i < |lines| :: !lines[i].End?
  }

  lemma {:induction false} GatherKeeps(lines: seq<Line>, chunks: seq<string>, k: nat)
    requires k < |chunks| && chunks[k] != ""
    ensures Gather(lines, chunks)[k] == chunks[k]
    decreases |lines|
  {
    if lines != [] {
      var n := |lines| - 1;
      match lines[n]
      case End(_, _) =>
      case Chunk(m, text) => GatherKeeps(lines[..n], if Fresh(chunks, m, text) then chunks[m := text] else chunks, k);
      case Other => GatherKeeps(lines[..n], chunks, k);
    }
  }

  lemma {:induction false} ChunkFront(lines: seq<Line>, k: nat, j: int)
    requires lines != [] && !lines[|lines| - 1].End?
    ensures ChunkAt(lines, k, j) <==>
            ChunkAt(lines[..|lines| - 1], k, j) || (j == |lines| - 1 && lines[j].Chunk? && lines[j].index == k && 0 < |lines[j].text| <= 1024)
  {
  }

  /** Of the readable chunks of one index the nearest before the END line is
      taken. */
  lemma {:induction false} GatherNearest(lines: seq<Line>, chunks: seq<string>, k: nat)
    requires k < |chunks| && chunks[k] == ""
    ensures Gather(lines, chunks)[k] == "" <==> forall j :: !ChunkAt(lines, k, j)
    ensures forall j | ChunkAt(lines, k, j) && (forall i | j < i :: !ChunkAt(lines, k, i)) :: lines[j].text == Gather(lines, chunks)[k]
    decreases |lines|
  {
    if lines != [] && !lines[|lines| - 1].End? {
      var n, line := |lines| - 1, lines[|lines| - 1];
      forall j
        ensures ChunkAt(lines, k, j) <==> ChunkAt(lines[..n], k, j) || (j == n && line.Chunk? && line.index == k && 0 < |line.text| <= 1024)
      {
        ChunkFront(lines, k, j);
      }
      if line.Chunk? && line.index == k && 0 < |line.text| <= 1024 {
        assert ChunkAt(lines, k, n);
        GatherKeeps(lines[..n], chunks[k := line.text], k);
      } else {
        GatherNearest(lines[..n], if line.Chunk? && Fresh(chunks, line.index, line.text) then chunks[line.index := line.text] else chunks, k);
      }
    }
  }

  /** The copy that is decoded is the newest readable one. */
  lemma {:induction false} ParsesNewest<R(!new)>(x: Scheme<R>, lines: seq<Line>, first: Option<Failure>, j: int)
    requires ReadsAt(x, lines, j) && forall i | j < i :: !ReadsAt(x, lines, i)
    ensures ParseLines(x, lines, first) == TaskCopy(x, lines[..j], lines[j].count, lines[j].digest)
    decreases |lines|
  {
    var n := |lines| - 1;
    if j < n {
      var front := lines[..n];
      assert front[..j] == lines[..j];
      forall i | j < i
        ensures !ReadsAt(x, front, i)
      {
        assert i < n ==> front[..i] == lines[..i];
        assert !ReadsAt(x, lines, i);
      }
      assert !ReadsAt(x, lines, n);
      if lines[n].End? {
        var copy := TaskCopy(x, front, lines[n].count, lines[n].digest);
        ParsesNewest(x, front, if first.Some? then first else Some(copy.failure), j);
      } else {
        ParsesNewest(x, front, first, j);
      }
    }
  }

  // ---- From lines to positions ----

  /** Where the copy before line j starts: after the END line before it. */
  function StartOf(lines: seq<Line>, j: nat): (e: nat)
    requires j <= |lines|
    ensures e <= j && (forall i | e <= i < j :: !lines[i].End?) && (e == 0 || lines[e - 1].End?)
  {
    if j == 0 || lines[j - 1].End? then j else StartOf(lines, j - 1)
  }

  lemma {:induction false} ReadsFromStart<R(!new)>(x: Scheme<R>, lines: seq<Line>, j: nat)
    requires ReadsAt(x, lines, j)
    ensures ReadsTo(x, lines[StartOf(lines, j)..], j - StartOf(lines, j))
  {
    var e := StartOf(lines, j);
    var tail := lines[e..];
    assert lines[..j] == lines[..e] + tail[..j - e];
    GatherStops(lines[..e], tail[..j - e], Blank(lines[j].count));
  }

  lemma {:induction false} ReadsInContext<R(!new)>(x: Scheme<R>, before: seq<Line>, lines: seq<Line>, m: nat)
    requires ReadsTo(x, lines, m)
    ensures ReadsAt(x, before + lines, |before| + m)
  {
    assert (before + lines)[..|before| + m] == before + lines[..m];
    GatherFull(before, lines[..m], Blank(lines[m].count));
  }

  lemma {:induction false} LineAt(text: string, e: nat) returns (p: nat)
    requires e < |Split(text)|
    ensures p <= |text| && (p == 0 || text[p - 1] == '\n') && Split(text[p..]) == Split(text)[e..]
    ensures e > 0 ==> p > 0
    decreases |text|
  {
    if e == 0 {
      p := 0;
      assert text[0..] == text;
    } else {
      var rest := text[1..];
      var q := LineAt(rest, if text[0] == '\n' then e - 1 else e);
      p := q + 1;
      assert text[p..] == rest[q..];
    }
  }

  lemma {:induction false} ReadAtLine<R(!new)>(x: Scheme<R>, text: string, j: nat) returns (p: nat)
    requires ReadsAt(x, ParseAll(Split(text)), j)
    ensures CopyAt(x, text, 0, p)
  {
    var lines := ParseAll(Split(text));
    ReadsFromStart(x, lines, j);
    var e := StartOf(lines, j);
    p := LineAt(text, e);
    ParsedBack(Split(text), e);
    assert ParseAll(Split(text[p..])) == lines[e..];
  }

  lemma {:induction false} ParsedBack(lines: seq<string>, e: nat)
    requires e <= |lines|
    ensures ParseAll(lines[e..]) == ParseAll(lines)[e..]
  {
    ParseTwo(lines[..e], lines[e..]);
    assert lines == lines[..e] + lines[e..];
  }

  lemma {:induction false} CopyIsRead<R(!new)>(x: Scheme<R>, text: string, p: nat)
    requires CopyAt(x, text, 0, p)
    ensures exists j :: ReadsAt(x, ParseAll(Split(text)), j)
  {
    var tail := ParseAll(Split(text[p..]));
    var m :| ReadsTo(x, tail, m);
    if p == 0 {
      assert text[0..] == text;
      ReadsInContext(x, [], tail, m);
      assert [] + tail == tail;
    } else {
      SplitBefore(text, p);
      ParseTwo(Split(text[..p - 1]), Split(text[p..]));
      ReadsInContext(x, ParseAll(Split(text[..p - 1])), tail, m);
    }
  }

  lemma {:induction false} CopyShifts<R>(x: Scheme<R>, log: string, w: nat, p: nat)
    requires w <= p <= |log|
    ensures CopyAt(x, log, w, p) <==> CopyAt(x, log[w..], 0, p - w)
  {
    assert log[w..][p - w..] == log[p..];
  }

  // ---- The condition ----

  lemma {:induction false} WithWindow<R>(x: Scheme<R>, log: string, text: string)
    requires Window(log) == Some(text)
    ensures ParseTaskResult(x, log) == ParseLines(x, ParseAll(Split(text)), None)
  {
  }

  lemma {:induction false} NoWindow<R>(x: Scheme<R>, log: string)
    requires Window(log).None?
    ensures ParseTaskResult(x, log) == Failed(NoResult)
  {
  }

  lemma {:induction false} SeenWindow<R>(x: Scheme<R>, log: string, w: nat)
    requires SeenFrom(log, w)
    ensures w <= |log| && ParseTaskResult(x, log) == ParseLines(x, ParseAll(Split(log[w..])), None)
  {
    WindowIs(log);
    WithWindow(x, log, log[w..]);
  }

  lemma {:induction false} NotSeen<R>(x: Scheme<R>, log: string)
    requires !RawMark(log)
    ensures ParseTaskResult(x, log) == Failed(NoResult)
  {
    WindowIs(log);
    NoWindow(x, log);
  }

  lemma {:induction false} SomewhereSeen(log: string) returns (w: nat)
    requires RawMark(log)
    ensures SeenFrom(log, w)
  {
    WindowIs(log);
    w :| SeenFrom(log, w);
  }

  // What is read, from w on, whatever makes the host start there.

  lemma {:induction false} TextFound<R(!new)>(x: Scheme<R>, text: string, p: nat)
    requires CopyAt(x, text, 0, p)
    ensures ParseLines(x, ParseAll(Split(text)), None).Got?
  {
    CopyIsRead(x, text, p);
    ParseFinds(x, ParseAll(Split(text)), None);
  }

  lemma {:induction false} CopyFound<R(!new)>(x: Scheme<R>, log: string, w: nat, p: nat)
    requires CopyAt(x, log, w, p)
    ensures ParseLines(x, ParseAll(Split(log[w..])), None).Got?
  {
    CopyShifts(x, log, w, p);
    TextFound(x, log[w..], p - w);
  }

  lemma {:induction false} FoundCopy<R(!new)>(x: Scheme<R>, log: string, w: nat) returns (p: nat)
    requires w <= |log| && ParseLines(x, ParseAll(Split(log[w..])), None).Got?
    ensures CopyAt(x, log, w, p)
  {
    ParseFinds(x, ParseAll(Split(log[w..])), None);
    var j :| ReadsAt(x, ParseAll(Split(log[w..])), j);
    var q := ReadAtLine(x, log[w..], j);
    p := w + q;
    CopyShifts(x, log, w, p);
  }

  /** The host finds a result if and only if a whole copy starts at or after
      the point from which it reads, for every log. */
  lemma {:induction false} FoundExactly<R(!new)>(x: Scheme<R>, log: string)
    ensures ParseTaskResult(x, log).Got? <==> exists w, p :: SeenFrom(log, w) && CopyAt(x, log, w, p)
  {
    if ParseTaskResult(x, log).Got? {
      assert RawMark(log) by {
        if !RawMark(log) {
          NotSeen(x, log);
        }
      }
      var w := SomewhereSeen(log);
      SeenWindow(x, log, w);
      var p := FoundCopy(x, log, w);
    }
    forall w: nat, p: nat | SeenFrom(log, w) && CopyAt(x, log, w, p)
      ensures ParseTaskResult(x, log).Got?
    {
      SeenWindow(x, log, w);
      CopyFound(x, log, w, p);
    }
  }

  /** Nothing but the document, if END lines carry its digest. */
  lemma {:induction false} FoundDocument<R(!new)>(x: Scheme<R>, d: Bytes, log: string, w: nat, p: nat)
    requires Faithful(x, d) && CopyAt(x, log, w, p) && EndsCarry(x, ParseAll(Split(log[w..])), d)
    ensures ParseLines(x, ParseAll(Split(log[w..])), None) == Got(x.read(d).value)
  {
    CopyFound(x, log, w, p);
    OnlyTheDocument(x, ParseAll(Split(log[w..])), None, d);
  }

  /** A log of at most 4 MiB in which a copy can be read yields the document
      if and only if an END marker stands raw at the start of a line. */
  lemma {:induction false} ShortLogExactly<R(!new)>(x: Scheme<R>, d: Bytes, log: string, p: nat)
    requires Faithful(x, d) && |log| <= WINDOW
    requires CopyAt(x, log, 0, p) && EndsCarry(x, ParseAll(Split(log)), d)
    ensures ParseTaskResult(x, log) == Got(x.read(d).value) <==> RawMark(log)
  {
    if RawMark(log) {
      ShortSeen(log);
      SeenWindow(x, log, 0);
      assert log[0..] == log;
      FoundDocument(x, d, log, 0, p);
    } else {
      NotSeen(x, log);
    }
  }

  lemma {:induction false} ShortSeen(log: string)
    requires RawMark(log) && |log| <= WINDOW
    ensures SeenFrom(log, 0)
  {
    var w := SomewhereSeen(log);
  }

  ghost predicate Newest<R>(x: Scheme<R>, log: string, p: nat) {
    CopyAt(x, log, 0, p) && forall q: nat | CopyAt(x, log, 0, q) :: q <= p
  }

  lemma {:induction false} WithinNewest<R>(x: Scheme<R>, log: string, w: nat, q: nat, p: nat)
    requires Newest(x, log, p) && 0 < w && CopyAt(x, log, w, q)
    requires !CopyFrom(x, log[w..]) || log[w - 1] == '\n'
    ensures q <= p
  {
    assert CopyAt(x, log, 0, q);
  }

  lemma {:induction false} NewestRead<R(!new)>(x: Scheme<R>, d: Bytes, log: string, w: nat, p: nat)
    requires Faithful(x, d) && w <= |log| && Newest(x, log, p)
    requires 0 < w ==> !CopyFrom(x, log[w..]) || log[w - 1] == '\n'
    requires EndsCarry(x, ParseAll(Split(log[w..])), d)
    ensures ParseLines(x, ParseAll(Split(log[w..])), None) == Got(x.read(d).value) <==> w <= p
  {
    if w <= p {
      FoundDocument(x, d, log, w, p);
    } else if ParseLines(x, ParseAll(Split(log[w..])), None).Got? {
      var q := FoundCopy(x, log, w);
      WithinNewest(x, log, w, q, p);
    }
  }

  lemma {:induction false} SeenAt(log: string, i: nat)
    requires LastAt(log, MARKED_LINE, i)
    ensures SeenFrom(log, Larger(0, i - WINDOW))
  {
  }

  lemma {:induction false} NewestSeen<R(!new)>(x: Scheme<R>, d: Bytes, log: string, w: nat, p: nat)
    requires Faithful(x, d) && SeenFrom(log, w) && w <= |log| && Newest(x, log, p)
    requires 0 < w ==> !CopyFrom(x, log[w..]) || log[w - 1] == '\n'
    requires EndsCarry(x, ParseAll(Split(log[w..])), d)
    ensures ParseTaskResult(x, log) == Got(x.read(d).value) <==> w <= p
  {
    SeenWindow(x, log, w);
    NewestRead(x, d, log, w, p);
  }

  /** In a longer log the newest readable copy counts: it is found if and only
      if it starts within 4 MiB before the last END marker. The remainder of
      the line that this bound cuts is taken not to complete a copy. */
  lemma {:induction false} NewestCopyExactly<R(!new)>(x: Scheme<R>, d: Bytes, log: string, i: nat, w: nat, p: nat)
    requires Faithful(x, d) && LastAt(log, MARKED_LINE, i) && w == Larger(0, i - WINDOW) && Newest(x, log, p)
    requires 0 < w ==> !CopyFrom(x, log[w..]) || log[w - 1] == '\n'
    requires EndsCarry(x, ParseAll(Split(log[w..])), d)
    ensures ParseTaskResult(x, log) == Got(x.read(d).value) <==> i - WINDOW <= p
  {
    SeenAt(log, i);
    NewestSeen(x, d, log, w, p);
  }

  // ---- Logs without result lines ----

  /** None of the lines is a result line. */
  predicate Quiet(lines: seq<string>) {
    forall i | 0 <= i < |lines| :: ParseLine(lines[i]) == Other
  }

  lemma {:induction false} OthersFail<R>(x: Scheme<R>, lines: seq<Line>)
    requires forall i | 0 <= i < |lines| :: lines[i] == Other
    ensures ParseLines(x, lines, None) == Failed(NoResult)
    decreases |lines|
  {
    if lines != [] {
      OthersFail(x, lines[..|lines| - 1]);
    }
  }

  /** An END line with nothing before it gives no result. */
  lemma {:induction false} FirstLineFails<R(!new)>(x: Scheme<R>, lines: seq<Line>)
    requires forall i | 1 <= i < |lines| :: lines[i] == Other
    ensures ParseLines(x, lines, None).Failed?
  {
    ParseFinds(x, lines, None);
    if lines != [] && lines[0].End? {
      NothingBefore(x, lines[0].count, lines[0].digest);
      assert lines[..0] == [];
    }
  }

  lemma {:induction false} NothingBefore<R>(x: Scheme<R>, n: nat, digest: string)
    ensures TaskCopy(x, [], n, digest).Failed?
  {
    if n > 0 {
      assert Blank(n)[0] == "";
    }
  }

  lemma {:induction false} CutQuiet(log: string, w: nat)
    requires w <= |log| && Quiet(Split(log))
    ensures forall i | 1 <= i < |Split(log[w..])| :: ParseAll(Split(log[w..]))[i] == Other
  {
    SplitCut(log, w);
    forall i | 1 <= i < |Split(log[w..])|
      ensures ParseAll(Split(log[w..]))[i] == Other
    {
      ParsedAt(Split(log[w..]), i);
      assert Split(log[w..])[i] in Split(log)[1..];
    }
  }

  /** A log without result lines yields no result, whatever else it holds and
      wherever the host starts to read it. */
  lemma {:induction false} QuietFails<R(!new)>(x: Scheme<R>, log: string)
    requires Quiet(Split(log))
    ensures ParseTaskResult(x, log).Failed?
    ensures |log| <= WINDOW || !RawMark(log) ==> ParseTaskResult(x, log) == Failed(NoResult)
  {
    if RawMark(log) {
      var w := SomewhereSeen(log);
      SeenWindow(x, log, w);
      CutQuiet(log, w);
      FirstLineFails(x, ParseAll(Split(log[w..])));
      if |log| <= WINDOW {
        ShortQuiet(x, log);
      }
    } else {
      NotSeen(x, log);
    }
  }

  lemma {:induction false} ShortQuiet<R>(x: Scheme<R>, log: string)
    requires Quiet(Split(log)) && RawMark(log) && |log| <= WINDOW
    ensures ParseTaskResult(x, log) == Failed(NoResult)
  {
    ShortSeen(log);
    SeenWindow(x, log, 0);
    assert log[0..] == log;
    forall i | 0 <= i < |Split(log)|
      ensures ParseAll(Split(log))[i] == Other
    {
      ParsedAt(Split(log), i);
    }
    OthersFail(x, ParseAll(Split(log)));
  }

  // ---- Every copy is a readable one ----

  lemma {:induction false} IntactReads<R>(x: Scheme<R>, d: Bytes, copy: seq<Line>, later: seq<Line>)
    requires Faithful(x, d) && Intact(copy, Pieces(x.encode(d)))
    ensures ReadsTo(x, copy + [End(|Pieces(x.encode(d))|, x.hash(d))] + later, |copy|)
  {
    var lines := copy + [End(|Pieces(x.encode(d))|, x.hash(d))] + later;
    IntactCopy(x, [], copy, d);
    assert [] + copy == copy && lines[..|copy|] == copy;
    forall i | 0 <= i < |copy|
      ensures !lines[i].End?
    {
      assert Agrees(copy[i], Pieces(x.encode(d)));
    }
  }

  /** The round trip on the text of a log, at its start or later: what is
      heard of one emitted copy decodes to the document, with any damaged
      copies around it, whenever a raw END marker makes the host look. */
  lemma {:induction false} NoisyRoundTrip<R(!new)>(x: Scheme<R>, d: Bytes, log: string, earlier: seq<Line>, heard: seq<Line>, later: seq<Line>)
    requires Faithful(x, d) && Woven(ParseAll(ChunkLines(Pieces(x.encode(d)))), heard)
    requires ParseAll(Split(log)) == earlier + heard + [End(|Pieces(x.encode(d))|, x.hash(d))] + later
    requires EndsCarry(x, ParseAll(Split(log)), d) && |log| <= WINDOW
    ensures ParseTaskResult(x, log) == Got(x.read(d).value) <==> RawMark(log)
  {
    if RawMark(log) {
      ShortSeen(log);
      SeenWindow(x, log, 0);
      assert log[0..] == log;
      HeardDecodes(x, d, earlier, heard, later);
    } else {
      NotSeen(x, log);
    }
  }

  /** And on a log of any length, with the copy in the part that is read. */
  lemma {:induction false} LogRoundTrip<R>(x: Scheme<R>, d: Bytes, log: string, w: nat, earlier: seq<Line>, heard: seq<Line>, later: seq<Line>)
    requires Faithful(x, d) && Woven(ParseAll(ChunkLines(Pieces(x.encode(d)))), heard)
    requires SeenFrom(log, w) && w <= |log|
    requires ParseAll(Split(log[w..])) == earlier + heard + [End(|Pieces(x.encode(d))|, x.hash(d))] + later
    requires EndsCarry(x, ParseAll(Split(log[w..])), d)
    ensures ParseTaskResult(x, log) == Got(x.read(d).value)
  {
    SeenWindow(x, log, w);
    HeardDecodes(x, d, earlier, heard, later);
  }
}
