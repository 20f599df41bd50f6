/** The task result's journey over the serial log: emit of task-runner.py and
    ParseTaskResult of internal/host/task.go. */
module Codec {
  import opened Model
  import opened Console

  type Bytes = string

  const CHUNK_SIZE := 512
  const MAX_CHUNK := 1024
  const MAX_CHUNKS := 16384
  const WINDOW := 4194304

  /** base64, SHA-256 in hex, and the decoding and bounding of the document,
      as given functions. */
  datatype Scheme<!R> = Scheme(encode: Bytes -> string, decode: string -> Option<Bytes>, hash: Bytes -> string, read: Bytes -> Option<R>)

  /** What is needed of them at one document: base64 reverses, the digest is
      64 hex digits that no other document shares, and the document reads. */
  ghost predicate Faithful<R>(x: Scheme<R>, d: Bytes) {
    && x.decode(x.encode(d)) == Some(d) && Base64Text(x.encode(d)) && x.encode(d) != "" && |x.encode(d)| <= CHUNK_SIZE * MAX_CHUNKS
    && DigestText(x.hash(d)) && (forall y | x.hash(y) == x.hash(d) :: y == d)
    && x.read(d).Some?
  }

  datatype Failure = NoResult | BadCount | Incomplete | BadEncoding | BadDigest | BadDocument

  datatype Parsed<+R> = Got(value: R) | Failed(failure: Failure)

  // ---- One copy ----

  function Blank(n: nat): seq<string> {
    seq(n, _ => "")
  }

  function Concat(chunks: seq<string>): string {
    if chunks == [] then "" else chunks[0] + Concat(chunks[1..])
  }

  predicate Fresh(chunks: seq<string>, k: nat, text: string) {
    k < |chunks| && chunks[k] == "" && 0 < |text| <= MAX_CHUNK
  }

  function Map<A, B>(f: A -> B, s: seq<A>): (r: seq<B>)
    ensures |r| == |s|
  {
    if s == [] then [] else Map(f, s[..|s| - 1]) + [f(s[|s| - 1])]
  }

  lemma {:induction false} MapAt<A, B>(f: A -> B, s: seq<A>, i: nat)
    requires i < |s|
    ensures Map(f, s)[i] == f(s[i])
  {
    if i < |s| - 1 {
      MapAt(f, s[..|s| - 1], i);
    }
  }

  lemma {:induction false} MapFront<A, B>(f: A -> B, s: seq<A>, j: nat)
    requires j <= |s|
    ensures Map(f, s[..j]) == Map(f, s)[..j]
  {
    if j < |s| {
      MapFront(f, s[..|s| - 1], j);
      assert s[..|s| - 1][..j] == s[..j];
    } else {
      assert s[..j] == s;
    }
  }

  lemma {:induction false} MapConcat<A, B>(f: A -> B, a: seq<A>, b: seq<A>)
    ensures Map(f, a + b) == Map(f, a) + Map(f, b)
  {
    if b == [] {
      assert a + b == a;
    } else {
      MapConcat(f, a, b[..|b| - 1]);
      assert (a + b)[..|a + b| - 1] == a + b[..|b| - 1];
    }
  }

  function ParseAll(lines: seq<string>): (r: seq<Line>) {
    Map(ParseLine, lines)
  }

  /** Reading backwards from an END line: the nearest chunk of each index
      counts, and an earlier END line ends the copy. */
  function Gather(lines: seq<Line>, chunks: seq<string>): (r: seq<string>)
    ensures |r| == |chunks|
    decreases |lines|
  {
    if lines == [] then chunks
    else
      var front := lines[..|lines| - 1];
      match lines[|lines| - 1]
      case End(_, _) => chunks
      case Chunk(k, text) => if Fresh(chunks, k, text) then Gather(front, chunks[k := text]) else Gather(front, chunks)
      case Other => Gather(front, chunks)
  }

  function TaskCopy<R>(x: Scheme<R>, lines: seq<Line>, n: nat, digest: string): Parsed<R> {
    if n < 1 || n > MAX_CHUNKS then Failed(BadCount)
    else
      var chunks := Gather(lines, Blank(n));
      if "" in chunks then Failed(Incomplete)
      else
        match x.decode(Concat(chunks))
        case None => Failed(BadEncoding)
        case Some(data) =>
          if x.hash(data) != digest then Failed(BadDigest)
          else
            match x.read(data)
            case None => Failed(BadDocument)
            case Some(r) => Got(r)
  }

  /** The newest intact copy wins; failing that, the newest copy's failure. */
  function ParseLines<R>(x: Scheme<R>, lines: seq<Line>, first: Option<Failure>): Parsed<R>
    decreases |lines|
  {
    if lines == [] then Failed(if first.Some? then first.value else NoResult)
    else
      var front := lines[..|lines| - 1];
      match lines[|lines| - 1]
      case End(n, digest) =>
        (match TaskCopy(x, front, n, digest)
         case Got(r) => Got(r)
         case Failed(f) => ParseLines(x, front, if first.Some? then first else Some(f)))
      case _ => ParseLines(x, front, first)
  }

  // ---- The window ----

  function LastIndex(s: string, p: string): (r: Option<nat>)
    ensures r.Some? ==> r.value + |p| <= |s| && s[r.value..r.value + |p|] == p
    decreases |s|
  {
    if |s| < |p| then None
    else if s[|s| - |p|..] == p then Some(|s| - |p|)
    else if s == "" then None
    else LastIndex(s[..|s| - 1], p)
  }

  function Larger(a: int, b: int): int {
    if a < b then b else a
  }

  const MARKED_LINE := "\n" + END_MARK

  /** The part of the log that is split into lines at all. */
  function Window(log: string): Option<string> {
    match LastIndex(log, MARKED_LINE)
    case Some(i) => Some(log[Larger(0, i - WINDOW)..])
    case None => if END_MARK <= log then Some(log) else None
  }

  function ParseTaskResult<R>(x: Scheme<R>, log: string): Parsed<R> {
    match Window(log)
    case None => Failed(NoResult)
    case Some(text) => ParseLines(x, ParseAll(Split(text)), None)
  }

  // ---- The loops ----

  function Filled(chunks: seq<string>): (n: nat)
    ensures n <= |chunks|
    ensures n == |chunks| <==> "" !in chunks
  {
    if chunks == [] then 0
    else
      var rest := Filled(chunks[1..]);
      assert chunks == [chunks[0]] + chunks[1..];
      (if chunks[0] != "" then 1 else 0) + rest
  }

  lemma {:induction false} FilledMore(chunks: seq<string>, k: nat, text: string)
    requires k < |chunks| && chunks[k] == "" && text != ""
    ensures Filled(chunks[k := text]) == Filled(chunks) + 1
  {
    if k > 0 {
      assert chunks[k := text][1..] == chunks[1..][k - 1 := text];
      FilledMore(chunks[1..], k - 1, text);
    } else {
      assert chunks[k := text][1..] == chunks[1..];
    }
  }

  lemma {:induction false} FilledBlank(n: nat)
    ensures Filled(Blank(n)) == 0
  {
    if n > 0 {
      assert Blank(n)[1..] == Blank(n - 1);
      FilledBlank(n - 1);
    }
  }

  lemma {:induction false} FullStays(lines: seq<Line>, chunks: seq<string>)
    requires "" !in chunks
    ensures Gather(lines, chunks) == chunks
    decreases |lines|
  {
    if lines != [] {
      FullStays(lines[..|lines| - 1], chunks);
    }
  }

  /** Keeps one chunk line, unless its place is taken or it is out of range. */
  method TakeChunk(line: Line, chunks: array<string>, found: nat) returns (now: nat)
    requires line.Chunk? && found == Filled(chunks[..])
    modifies chunks
    ensures chunks[..] == if Fresh(old(chunks[..]), line.index, line.text) then old(chunks[..])[line.index := line.text] else old(chunks[..])
    ensures now == Filled(chunks[..])
  {
    now := found;
    if line.index < chunks.Length && chunks[line.index] == "" && 0 < |line.text| <= MAX_CHUNK {
      ghost var before := chunks[..];
      chunks[line.index] := line.text;
      assert chunks[..] == before[line.index := line.text];
      FilledMore(before, line.index, line.text);
      now := found + 1;
    }
  }

  /** The j-th line, read as the loops read it. */
  method ReadLine(lines: seq<string>, j: nat) returns (line: Line)
    requires j < |lines|
    ensures line == ParseAll(lines)[j]
  {
    line := ParseLine(lines[j]);
    MapAt(ParseLine, lines, j);
  }

  /** taskResultCopy's backward loop over a chunk array. */
  method GatherChunks(lines: seq<string>, n: nat) returns (chunks: array<string>, found: nat)
    ensures fresh(chunks) && chunks[..] == Gather(ParseAll(lines), Blank(n))
    ensures found == n <==> "" !in chunks[..]
  {
    ghost var parsed := ParseAll(lines);
    chunks := new string[n](_ => "");
    found := 0;
    var j := |lines|;
    FilledBlank(n);
    assert chunks[..] == Blank(n);
    assert parsed[..j] == parsed;
    while j > 0 && found < n
      invariant 0 <= j <= |lines| && chunks.Length == n && fresh(chunks)
      invariant Gather(parsed[..j], chunks[..]) == Gather(parsed, Blank(n))
      invariant found == Filled(chunks[..])
      decreases j
    {
      j := j - 1;
      assert parsed[..j + 1][..j] == parsed[..j];
      var line := ReadLine(lines, j);
      match line
      case End(_, _) => return;
      case Chunk(_, _) => found := TakeChunk(line, chunks, found);
      case Other =>
    }
    if found == n {
      FullStays(parsed[..j], chunks[..]);
    }
  }

  method TaskResultCopy<R>(x: Scheme<R>, lines: seq<string>, n: nat, digest: string) returns (r: Parsed<R>)
    ensures r == TaskCopy(x, ParseAll(lines), n, digest)
  {
    if n < 1 || n > MAX_CHUNKS {
      return Failed(BadCount);
    }
    var chunks, found := GatherChunks(lines, n);
    if found != n {
      return Failed(Incomplete);
    }
    var data := x.decode(Concat(chunks[..]));
    if data.None? {
      return Failed(BadEncoding);
    }
    if x.hash(data.value) != digest {
      return Failed(BadDigest);
    }
    var document := x.read(data.value);
    if document.None? {
      return Failed(BadDocument);
    }
    return Got(document.value);
  }

  /** One line further back. */
  lemma {:induction false} ParseBack<R>(x: Scheme<R>, lines: seq<Line>, i: nat, first: Option<Failure>)
    requires i < |lines|
    ensures ParseLines(x, lines[..i + 1], first)
         == match lines[i]
            case End(n, digest) =>
              (match TaskCopy(x, lines[..i], n, digest)
               case Got(r) => Got(r)
               case Failed(f) => ParseLines(x, lines[..i], if first.Some? then first else Some(f)))
            case _ => ParseLines(x, lines[..i], first)
  {
    assert lines[..i + 1][..i] == lines[..i];
  }

  lemma {:induction false} ParsedFront(lines: seq<string>, i: nat)
    requires i <= |lines|
    ensures ParseAll(lines[..i]) == ParseAll(lines)[..i]
  {
    MapFront(ParseLine, lines, i);
  }

  /** ParseTaskResult's loop, from the last line backwards. */
  method ScanBack<R>(x: Scheme<R>, lines: seq<string>) returns (r: Parsed<R>)
    ensures r == ParseLines(x, ParseAll(lines), None)
  {
    ghost var parsed := ParseAll(lines);
    var first: Option<Failure> := None;
    var i := |lines|;
    assert parsed[..i] == parsed;
    while i > 0
      invariant 0 <= i <= |lines| == |parsed|
      invariant ParseLines(x, parsed[..i], first) == ParseLines(x, parsed, None)
    {
      i := i - 1;
      ParseBack(x, parsed, i, first);
      var m := ReadLine(lines, i);
      if m.End? {
        ParsedFront(lines, i);
        var copy := TaskResultCopy(x, lines[..i], m.count, m.digest);
        if copy.Got? {
          return copy;
        }
        if first.None? {
          first := Some(copy.failure);
        }
      }
    }
    return Failed(if first.Some? then first.value else NoResult);
  }

  method Parse<R>(x: Scheme<R>, log: string) returns (r: Parsed<R>)
    ensures r == ParseTaskResult(x, log)
  {
    var text := Window(log);
    if text.None? {
      return Failed(NoResult);
    }
    r := ScanBack(x, Split(text.value));
  }
}
