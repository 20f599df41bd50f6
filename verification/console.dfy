/** The serial console's text: lines, and the runner's result lines among
    them (internal/host/task.go and task-runner.py). */
module Console {
  // ---- Lines ----

  /** One more character in front of the first line. */
  function Before(c: char, lines: seq<string>): (r: seq<string>)
    requires lines != []
    ensures r != []
  {
    if c == '\n' then [""] + lines else [[c] + lines[0]] + lines[1..]
  }

  function Split(s: string): (lines: seq<string>)
    ensures lines != []
  {
    if s == "" then [""] else Before(s[0], Split(s[1..]))
  }

  function Join(lines: seq<string>): string {
    if lines == [] then "" else if |lines| == 1 then lines[0] else lines[0] + "\n" + Join(lines[1..])
  }

  predicate OneLine(s: string) {
    forall i | 0 <= i < |s| :: s[i] != '\n'
  }

  lemma {:induction false} BeforeMore(c: char, x: seq<string>, y: seq<string>)
    requires x != []
    ensures Before(c, x + y) == Before(c, x) + y
  {
    assert (x + y)[1..] == x[1..] + y;
  }

  lemma {:induction false} SplitAtNewline(a: string, b: string)
    ensures Split(a + "\n" + b) == Split(a) + Split(b)
  {
    var s := a + "\n" + b;
    if a == "" {
      assert s[1..] == b;
    } else {
      SplitAtNewline(a[1..], b);
      assert s[1..] == a[1..] + "\n" + b;
      BeforeMore(a[0], Split(a[1..]), Split(b));
    }
  }

  lemma {:induction false} SplitLine(s: string)
    requires OneLine(s)
    ensures Split(s) == [s]
  {
    if s != "" {
      SplitLine(s[1..]);
      assert [s[0]] + s[1..] == s;
    }
  }

  lemma {:induction false} SplitJoin(lines: seq<string>)
    requires lines != [] && forall i | 0 <= i < |lines| :: OneLine(lines[i])
    ensures Split(Join(lines)) == lines
  {
    SplitLine(lines[0]);
    if |lines| > 1 {
      SplitJoin(lines[1..]);
      SplitAtNewline(lines[0], Join(lines[1..]));
      assert lines == [lines[0]] + lines[1..];
    } else {
      assert lines == [lines[0]];
    }
  }

  lemma {:induction false} SplitOneLine(s: string)
    ensures forall i | 0 <= i < |Split(s)| :: OneLine(Split(s)[i])
  {
    if s != "" {
      SplitOneLine(s[1..]);
    }
  }

  /** What a text starts with, its first line starts with. */
  lemma {:induction false} SplitPrefix(mark: string, s: string)
    requires OneLine(mark) && mark <= s
    ensures mark <= Split(s)[0]
  {
    if mark != "" {
      assert s[0] == mark[0] && mark[1..] <= s[1..];
      assert OneLine(mark[1..]);
      SplitPrefix(mark[1..], s[1..]);
      assert mark == [mark[0]] + mark[1..];
    }
  }

  lemma {:induction false} SplitAfter(mark: string, s: string)
    requires OneLine(mark)
    ensures Split(mark + s) == [mark + Split(s)[0]] + Split(s)[1..]
  {
    if mark == "" {
      assert mark + s == s;
      assert mark + Split(s)[0] == Split(s)[0];
    } else {
      assert OneLine(mark[1..]);
      assert (mark + s)[1..] == mark[1..] + s && (mark + s)[0] == mark[0];
      SplitAfter(mark[1..], s);
      assert [mark[0]] + (mark[1..] + Split(s)[0]) == mark + Split(s)[0];
    }
  }

  /** Cutting characters off the front changes the first line alone, or takes
      lines away. */
  lemma {:induction false} SplitCut(s: string, w: nat)
    requires w <= |s|
    ensures forall i | 1 <= i < |Split(s[w..])| :: Split(s[w..])[i] in Split(s)[1..]
  {
    if w == 0 {
      assert s[0..] == s;
      assert forall i | 1 <= i < |Split(s)| :: Split(s)[1..][i - 1] == Split(s)[i];
    } else {
      assert s[w..] == s[1..][w - 1..];
      SplitCut(s[1..], w - 1);
      var rest := Split(s[1..]);
      forall v | v in rest[1..]
        ensures v in Split(s)[1..]
      {
        assert s[0] == '\n' ==> Split(s)[1..] == rest;
        assert s[0] != '\n' ==> Split(s)[1..] == rest[1..];
      }
    }
  }

  // ---- consoleLine ----

  function TrimRight(s: string): string {
    if s != "" && s[|s| - 1] == '\r' then TrimRight(s[..|s| - 1]) else s
  }

  function TrimLeft(s: string): string {
    if s != "" && (s[0] == '\r' || s[0] == ' ') then TrimLeft(s[1..]) else s
  }

  function ConsoleLine(s: string): string {
    var t := TrimRight(s);
    if t != "" && t[0] == '\r' then TrimLeft(t) else t
  }

  // ---- Decimal numbers ----

  predicate IsDigit(c: char) {
    '0' <= c <= '9'
  }

  function Digit(n: nat): char
    requires n < 10
  {
    "0123456789"[n]
  }

  function DigitValue(c: char): nat {
    if IsDigit(c) then c as int - '0' as int else 0
  }

  function Decimal(n: nat): string {
    if n < 10 then [Digit(n)] else Decimal(n / 10) + [Digit(n % 10)]
  }

  function Value(s: string): nat {
    if s == "" then 0 else Value(s[..|s| - 1]) * 10 + DigitValue(s[|s| - 1])
  }

  lemma {:induction false} DigitRoundTrip(n: nat)
    requires n < 10
    ensures IsDigit(Digit(n)) && DigitValue(Digit(n)) == n
  {
    assert n == 0 || n == 1 || n == 2 || n == 3 || n == 4 || n == 5 || n == 6 || n == 7 || n == 8 || n == 9;
  }

  lemma {:induction false} DecimalRoundTrip(n: nat)
    ensures Value(Decimal(n)) == n
    ensures forall i | 0 <= i < |Decimal(n)| :: IsDigit(Decimal(n)[i])
    ensures |Decimal(n)| >= 1
  {
    DigitRoundTrip(n % 10);
    if n < 10 {
      assert Decimal(n)[..0] == "";
    } else {
      DecimalRoundTrip(n / 10);
      assert Decimal(n)[..|Decimal(n)| - 1] == Decimal(n / 10);
    }
  }

  lemma {:induction false} DecimalShort(n: nat)
    requires n < 100000
    ensures |Decimal(n)| <= 5
  {
    if n >= 10 {
      assert |Decimal(n)| == |Decimal(n / 10)| + 1;
      if n >= 100 {
        assert |Decimal(n / 10)| == |Decimal(n / 10 / 10)| + 1;
        if n >= 1000 {
          assert |Decimal(n / 10 / 10)| == |Decimal(n / 10 / 10 / 10)| + 1;
          if n >= 10000 {
            assert |Decimal(n / 10 / 10 / 10)| == |Decimal(n / 10 / 10 / 10 / 10)| + 1;
          }
        }
      }
    }
  }

  /** How many digits a text starts with. */
  function DigitRun(s: string): (n: nat)
    ensures n <= |s|
    ensures forall i | 0 <= i < n :: IsDigit(s[i])
    ensures n < |s| ==> !IsDigit(s[n])
  {
    if s == "" || !IsDigit(s[0]) then 0
    else
      var n := DigitRun(s[1..]);
      assert forall i | 1 <= i < n + 1 :: s[i] == s[1..][i - 1];
      1 + n
  }

  lemma {:induction false} DigitRunOf(d: string, rest: string)
    requires forall i | 0 <= i < |d| :: IsDigit(d[i])
    requires rest == "" || !IsDigit(rest[0])
    ensures DigitRun(d + rest) == |d|
  {
    if d == "" {
      assert d + rest == rest;
    } else {
      assert (d + rest)[1..] == d[1..] + rest;
      DigitRunOf(d[1..], rest);
    }
  }

  // ---- The runner's result lines ----

  const CHUNK_MARK := "RUNNERLOOM_TASK_RESULT "
  const END_MARK := "RUNNERLOOM_TASK_RESULT_END "
  const STATUS_MARK := "RUNNERLOOM_TASK "

  predicate IsBase64(c: char) {
    'A' <= c <= 'Z' || 'a' <= c <= 'z' || IsDigit(c) || c == '+' || c == '/' || c == '='
  }

  predicate IsHex(c: char) {
    'a' <= c <= 'f' || IsDigit(c)
  }

  predicate Base64Text(s: string) {
    forall i | 0 <= i < |s| :: IsBase64(s[i])
  }

  predicate DigestText(s: string) {
    |s| == 64 && forall i | 0 <= i < |s| :: IsHex(s[i])
  }

  datatype Line = Chunk(index: nat, text: string) | End(count: nat, digest: string) | Other

  datatype Numbered = Numbered(number: nat, rest: string) | Malformed

  /** "([0-9]{1,5}) (.*)". */
  function ParseNumbered(s: string): Numbered {
    var k := DigitRun(s);
    if 1 <= k <= 5 && k < |s| && s[k] == ' ' then Numbered(Value(s[..k]), s[k + 1..]) else Malformed
  }

  function ParseChunk(s: string): Line
    requires CHUNK_MARK <= s
  {
    match ParseNumbered(s[|CHUNK_MARK|..])
    case Malformed => Other
    case Numbered(n, text) => if Base64Text(text) then Chunk(n, text) else Other
  }

  function ParseEnd(s: string): Line
    requires END_MARK <= s
  {
    match ParseNumbered(s[|END_MARK|..])
    case Malformed => Other
    case Numbered(n, text) => if DigestText(text) then End(n, text) else Other
  }

  /** taskChunk and taskEnd. */
  function ParseShown(s: string): Line {
    if CHUNK_MARK <= s then ParseChunk(s) else if END_MARK <= s then ParseEnd(s) else Other
  }

  /** A line as the console shows it. */
  function ParseLine(raw: string): Line {
    ParseShown(ConsoleLine(raw))
  }

  function ChunkLine(index: nat, text: string): string {
    CHUNK_MARK + Decimal(index) + " " + text
  }

  function EndLine(count: nat, digest: string): string {
    END_MARK + Decimal(count) + " " + digest
  }

  lemma {:induction false} ConsolePlain(s: string)
    requires s != "" && s[0] != '\r' && s[|s| - 1] != '\r'
    ensures ConsoleLine(s) == s
  {
  }

  lemma {:induction false} NumberedRoundTrip(n: nat, text: string)
    requires n < 100000
    ensures ParseNumbered(Decimal(n) + " " + text) == Numbered(n, text)
  {
    DecimalRoundTrip(n);
    DecimalShort(n);
    var s := Decimal(n) + " " + text;
    assert s == Decimal(n) + (" " + text);
    DigitRunOf(Decimal(n), " " + text);
    assert s[..|Decimal(n)|] == Decimal(n);
    assert s[|Decimal(n)| + 1..] == text;
  }

  lemma {:induction false} Marked(mark: string, body: string)
    requires mark != "" && mark[0] != '\r' && OneLine(mark)
    requires body != "" && body[|body| - 1] != '\r' && OneLine(body)
    ensures ConsoleLine(mark + body) == mark + body && OneLine(mark + body)
    ensures mark <= mark + body && (mark + body)[|mark|..] == body
  {
    ConsolePlain(mark + body);
  }

  lemma {:induction false} NumberedPlain(n: nat, text: string)
    requires OneLine(text) && (text != "" ==> text[|text| - 1] != '\r')
    ensures var body := Decimal(n) + " " + text;
            body != "" && body[|body| - 1] != '\r' && OneLine(body)
  {
    DecimalRoundTrip(n);
    var body := Decimal(n) + " " + text;
    forall i | 0 <= i < |body|
      ensures body[i] != '\n'
    {
      assert i < |Decimal(n)| ==> body[i] == Decimal(n)[i] && IsDigit(Decimal(n)[i]);
      assert i > |Decimal(n)| ==> body[i] == text[i - |Decimal(n)| - 1];
    }
  }

  lemma {:induction false} ShownChunk(body: string, index: nat, text: string)
    requires ParseNumbered(body) == Numbered(index, text) && Base64Text(text)
    ensures ParseShown(CHUNK_MARK + body) == Chunk(index, text)
  {
    assert (CHUNK_MARK + body)[|CHUNK_MARK|..] == body;
  }

  lemma {:induction false} ShownEnd(body: string, count: nat, digest: string)
    requires ParseNumbered(body) == Numbered(count, digest) && DigestText(digest)
    ensures ParseShown(END_MARK + body) == End(count, digest)
  {
    assert (END_MARK + body)[|END_MARK|..] == body;
    assert (END_MARK + body)[|CHUNK_MARK| - 1] == '_';
  }

  lemma {:induction false} MarkedText(mark: string, number: string, text: string)
    ensures mark + number + " " + text == mark + (number + " " + text)
  {
  }

  /** What the runner prints is what the host reads. */
  lemma {:induction false} ChunkRoundTrip(index: nat, text: string)
    requires index < 100000 && Base64Text(text)
    ensures ParseLine(ChunkLine(index, text)) == Chunk(index, text)
    ensures OneLine(ChunkLine(index, text))
  {
    var body := Decimal(index) + " " + text;
    NumberedRoundTrip(index, text);
    NumberedPlain(index, text);
    Marked(CHUNK_MARK, body);
    MarkedText(CHUNK_MARK, Decimal(index), text);
    ShownChunk(body, index, text);
  }

  lemma {:induction false} EndRoundTrip(count: nat, digest: string)
    requires count < 100000 && DigestText(digest)
    ensures ParseLine(EndLine(count, digest)) == End(count, digest)
    ensures OneLine(EndLine(count, digest)) && END_MARK <= EndLine(count, digest)
  {
    var body := Decimal(count) + " " + digest;
    NumberedRoundTrip(count, digest);
    NumberedPlain(count, digest);
    Marked(END_MARK, body);
    MarkedText(END_MARK, Decimal(count), digest);
    ShownEnd(body, count, digest);
  }

  lemma {:induction false} TrimRightPrefix(s: string)
    ensures TrimRight(s) <= s
    ensures s != "" && s[0] != '\r' ==> TrimRight(s) != "" && TrimRight(s)[0] == s[0]
  {
    if s != "" && s[|s| - 1] == '\r' {
      TrimRightPrefix(s[..|s| - 1]);
    }
  }

  /** A mirrored line of agent output is never read as the runner's own,
      whatever the agent printed. */
  lemma {:induction false} MirroredIsOther(text: string)
    ensures ParseLine("| " + text) == Other
  {
    TrimRightPrefix("| " + text);
  }

  /** Nor is a status line of the runner. */
  lemma {:induction false} StatusIsOther(message: string)
    ensures ParseLine(STATUS_MARK + message) == Other
  {
    var s := STATUS_MARK + message;
    TrimRightPrefix(s);
    assert ConsoleLine(s) <= s;
    assert s[15] == ' ' && CHUNK_MARK[15] == '_' && END_MARK[15] == '_';
  }

  // ---- What the serial line adds to a printed line ----

  /** What erases a status line before the next one: carriage returns and
      blanks. */
  predicate Erasing(s: string) {
    s == "" || (s[0] == '\r' && forall i | 0 <= i < |s| :: s[i] == '\r' || s[i] == ' ')
  }

  predicate Returning(s: string) {
    forall i | 0 <= i < |s| :: s[i] == '\r'
  }

  lemma {:induction false} TrimRightAfter(a: string, s: string)
    ensures TrimRight(a + s) == if TrimRight(s) == "" then TrimRight(a) else a + TrimRight(s)
  {
    if s == "" {
      assert a + s == a;
    } else if s[|s| - 1] == '\r' {
      assert (a + s)[..|a + s| - 1] == a + s[..|s| - 1];
      TrimRightAfter(a, s[..|s| - 1]);
    }
  }

  lemma {:induction false} ReturnsTrimmed(r: string)
    requires Returning(r)
    ensures TrimRight(r) == ""
  {
    if r != "" {
      ReturnsTrimmed(r[..|r| - 1]);
    }
  }

  lemma {:induction false} TrimLeftAfter(a: string, t: string)
    requires forall i | 0 <= i < |a| :: a[i] == '\r' || a[i] == ' '
    ensures TrimLeft(a + t) == TrimLeft(t)
  {
    if a == "" {
      assert a + t == t;
    } else {
      assert (a + t)[1..] == a[1..] + t;
      TrimLeftAfter(a[1..], t);
    }
  }

  /** Carriage returns at the end of a line change nothing. */
  lemma {:induction false} Returned(s: string, r: string)
    requires Returning(r)
    ensures ConsoleLine(s + r) == ConsoleLine(s)
  {
    TrimRightAfter(s, r);
    ReturnsTrimmed(r);
  }

  /** Nor does an erased status line in front of it. */
  lemma {:induction false} ErasedAway(p: string, s: string)
    requires Erasing(p) && (s == "" || s[0] != ' ')
    ensures ConsoleLine(p + s) == ConsoleLine(s)
  {
    if p == "" {
      assert p + s == s;
    } else {
      var t := TrimRight(s);
      TrimRightAfter(p, s);
      TrimRightPrefix(s);
      if t == "" {
        TrimRightPrefix(p);
        TrimLeftAfter(TrimRight(p), "");
        assert TrimRight(p) + "" == TrimRight(p);
      } else {
        TrimLeftAfter(p, t);
        assert t[0] == s[0];
      }
    }
  }

  /** So a printed line is read as it was printed, wherever the console put
      it: behind an erased status line, and ended by carriage returns. */
  lemma {:induction false} AsPrinted(p: string, s: string, r: string)
    requires Erasing(p) && Returning(r) && (s == "" || s[0] != ' ')
    ensures ParseLine(p + s + r) == ParseLine(s)
  {
    Returned(p + s, r);
    ErasedAway(p, s);
  }
}
