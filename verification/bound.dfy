/** boundResult of internal/host/task.go: every guest document becomes one the
    controller accepts, and the loop that shrinks it ends. */
module Bound {
  import opened Model
  import opened State

  const MAX_OUTPUT := 65536
  const MAX_PATCH := 393216
  const MAX_ERROR := 4096
  const MAX_DIFFSTAT := 16384
  const MAX_REPORT := 921600

  /** A guest document; `status` is None for any text but the known ones. */
  datatype Document = Document(
    status: Option<ResultStatus>, exitCode: int, error: string, output: string, branch: string, commit: string,
    changed: bool, pushed: bool, url: string, diffStat: string, patch: string, truncated: bool)

  /** The library functions involved: the length of a JSON string and number,
      dropping of broken UTF-8, and the checks of references and URLs. */
  datatype Library = Library(
    quoted: string -> nat, number: int -> nat, repair: string -> string, validRef: string -> bool, validURL: string -> bool)

  /** What is used of them: escaping takes at most six bytes for one, an
      integer at most twenty digits and a sign, repairing never lengthens, and
      a branch name has at most 200 characters. */
  ghost predicate Sane(l: Library) {
    && (forall s :: l.quoted(s) <= 6 * |s| + 2)
    && (forall n :: l.number(n) <= 20)
    && (forall s :: |l.repair(s)| <= |s|)
    && (forall s | l.validRef(s) :: |s| <= 200)
  }

  predicate CommitText(s: string) {
    |s| <= 64 && forall i | 0 <= i < |s| :: 'a' <= s[i] <= 'f' || '0' <= s[i] <= '9'
  }

  /** TaskResult.Validate. */
  predicate Valid(l: Library, r: Document) {
    && r.status.Some?
    && |r.error| <= MAX_ERROR && |r.output| <= MAX_OUTPUT && |r.diffStat| <= MAX_DIFFSTAT && |r.patch| <= MAX_PATCH
    && (r.branch == "" || l.validRef(r.branch)) && CommitText(r.commit) && |r.url| <= 512
    && (r.url == "" || l.validURL(r.url))
  }

  // ---- The JSON report ----

  function Member(l: Library, name: nat, s: string): nat {
    if s == "" then 0 else name + l.quoted(s)
  }

  function StatusSize(s: Option<ResultStatus>): nat {
    match s
    case Some(StatusSucceeded) => 11
    case Some(StatusFailed) => 8
    case Some(StatusNoResult) => 11
    case None => 2
  }

  /** The length of the JSON text of a report carrying this result. */
  function ReportSize(l: Library, r: Document): nat {
    57 + 10 + StatusSize(r.status) + 12 + l.number(r.exitCode)
    + Member(l, 9, r.error) + Member(l, 10, r.output) + Member(l, 10, r.branch) + Member(l, 10, r.commit)
    + 11 + (if r.changed then 4 else 5) + 10 + (if r.pushed then 4 else 5)
    + Member(l, 18, r.url) + Member(l, 12, r.diffStat) + Member(l, 9, r.patch)
    + (if r.truncated then 17 else 0) + 1
  }

  // ---- Bounding ----

  function Tail(l: Library, s: string, n: nat): string {
    if |s| <= n then s else l.repair(s[|s| - n..])
  }

  function Coerced(l: Library, r: Document): Document {
    var status := if r.status == Some(StatusSucceeded) || r.status == Some(StatusFailed) then r.status else Some(StatusFailed);
    var output := Tail(l, r.output, MAX_OUTPUT);
    var patch := if |r.patch| > MAX_PATCH then "" else r.patch;
    var bounded := r.(
      status := status, error := Tail(l, r.error, MAX_ERROR), output := output, diffStat := Tail(l, r.diffStat, MAX_DIFFSTAT),
      patch := patch, branch := if r.branch != "" && !l.validRef(r.branch) then "" else r.branch,
      truncated := r.truncated || |r.output| > MAX_OUTPUT || |r.patch| > MAX_PATCH);
    if Valid(l, bounded) then bounded else bounded.(commit := "", url := "")
  }

  lemma {:induction false} CoercedValid(l: Library, r: Document)
    requires Sane(l)
    ensures Valid(l, Coerced(l, r))
    ensures Coerced(l, r).status == Some(StatusSucceeded) <==> r.status == Some(StatusSucceeded)
  {
  }

  /** Room for everything but patch and output, whatever must be escaped. */
  const REST := 131072

  lemma {:induction false} RestFits(l: Library, r: Document)
    requires Sane(l) && Valid(l, r) && r.patch == "" && r.output == ""
    ensures ReportSize(l, r) <= REST
  {
    RestBound(l, r);
  }

  lemma {:induction false} RestBound(l: Library, r: Document)
    requires Sane(l) && Valid(l, r)
    ensures ReportSize(l, r) <= REST + Member(l, 10, r.output) + Member(l, 9, r.patch)
  {
    assert l.quoted(r.error) <= 6 * MAX_ERROR + 2;
    assert l.quoted(r.diffStat) <= 6 * MAX_DIFFSTAT + 2;
    assert l.quoted(r.branch) <= 6 * 200 + 2;
    assert l.quoted(r.commit) <= 6 * 64 + 2;
    assert l.quoted(r.url) <= 6 * 512 + 2;
    assert l.number(r.exitCode) <= 20;
  }

  function WithoutPatch(r: Document): Document {
    r.(patch := "", truncated := true)
  }

  function Halved(l: Library, r: Document): Document {
    r.(output := Tail(l, r.output, |r.output| / 2), truncated := true)
  }

  lemma {:induction false} HalvedShrinks(l: Library, r: Document)
    requires Sane(l) && Valid(l, r)
    ensures Valid(l, WithoutPatch(r)) && Valid(l, Halved(l, r))
    ensures r.output != "" ==> |Halved(l, r).output| < |r.output|
    ensures |Halved(l, r).output| <= |r.output|
  {
  }

  /** First the patch goes, then the output is halved until the report fits. */
  function Shrunk(l: Library, r: Document, limit: nat): Document
    requires Sane(l) && Valid(l, r) && REST <= limit
    decreases r.patch != "", |r.output|
  {
    HalvedShrinks(l, r);
    if ReportSize(l, r) <= limit then r
    else if r.patch != "" then Shrunk(l, WithoutPatch(r), limit)
    else if r.output == "" then RestFits(l, r); r
    else Shrunk(l, Halved(l, r), limit)
  }

  method Shrink(l: Library, r: Document, limit: nat) returns (out: Document)
    requires Sane(l) && Valid(l, r) && REST <= limit
    ensures out == Shrunk(l, r, limit)
  {
    out := r;
    while ReportSize(l, out) > limit
      invariant Valid(l, out) && Shrunk(l, out, limit) == Shrunk(l, r, limit)
      decreases out.patch != "", |out.output|
    {
      HalvedShrinks(l, out);
      if out.patch != "" {
        out := WithoutPatch(out);
        continue;
      }
      assert out.output != "" by {
        if out.output == "" {
          RestFits(l, out);
        }
      }
      out := Halved(l, out);
    }
  }

  function Bounded(l: Library, r: Document): Document
    requires Sane(l)
  {
    CoercedValid(l, r);
    Shrunk(l, Coerced(l, r), MAX_REPORT)
  }

  method BoundResult(l: Library, r: Document) returns (out: Document)
    requires Sane(l)
    ensures out == Bounded(l, r)
  {
    CoercedValid(l, r);
    out := Shrink(l, Coerced(l, r), MAX_REPORT);
  }

  // ---- What comes out ----

  /** Whatever the guest sent, what is reported is valid, within 900 KiB, and
      tells success exactly when the guest did; what was dropped is flagged. */
  lemma {:induction false} BoundedIsReportable(l: Library, r: Document)
    requires Sane(l)
    ensures var out := Bounded(l, r);
            && Valid(l, out) && ReportSize(l, out) <= MAX_REPORT
            && (out.status == Some(StatusSucceeded) <==> r.status == Some(StatusSucceeded))
            && (out.output != r.output || out.patch != r.patch ==> out.truncated)
            && (out.patch == r.patch || out.patch == "")
            && out.exitCode == r.exitCode && out.changed == r.changed && out.pushed == r.pushed
  {
    CoercedValid(l, r);
    ShrunkFits(l, Coerced(l, r), MAX_REPORT);
  }

  lemma {:induction false} ShrunkFits(l: Library, r: Document, limit: nat)
    requires Sane(l) && Valid(l, r) && REST <= limit
    ensures var out := Shrunk(l, r, limit);
            && Valid(l, out) && ReportSize(l, out) <= limit
            && out.status == r.status && out.exitCode == r.exitCode && out.changed == r.changed && out.pushed == r.pushed
            && (r.truncated || out.output != r.output || out.patch != r.patch ==> out.truncated)
            && (out.patch == r.patch || out.patch == "")
    decreases r.patch != "", |r.output|
  {
    HalvedShrinks(l, r);
    if ReportSize(l, r) > limit {
      if r.patch != "" {
        ShrunkFits(l, WithoutPatch(r), limit);
      } else if r.output == "" {
        RestFits(l, r);
      } else {
        ShrunkFits(l, Halved(l, r), limit);
      }
    }
  }

  /** At the limit of 900 KiB dropping the patch is always enough: however
      much of it must be escaped, the 64 KiB of output kept is never halved. */
  lemma {:induction false} OutputNeverHalved(l: Library, r: Document)
    requires Sane(l)
    ensures Bounded(l, r).output == Tail(l, r.output, MAX_OUTPUT)
  {
    CoercedValid(l, r);
    var c := Coerced(l, r);
    RestBound(l, WithoutPatch(c));
    assert l.quoted(c.output) <= 6 * MAX_OUTPUT + 2;
    assert Shrunk(l, WithoutPatch(c), MAX_REPORT) == WithoutPatch(c);
    RestBound(l, c);
  }

  /** The whole text, or what is left of its last bytes. */
  predicate Ending(l: Library, s: string, n: nat, e: string) {
    e == if |s| <= n then s else l.repair(s[|s| - n..])
  }

  predicate Trusted(l: Library, r: Document) {
    CommitText(r.commit) && |r.url| <= 512 && (r.url == "" || l.validURL(r.url))
  }

  /** Status, texts, branch, commit and URL of what is reported. */
  predicate TextsOf(l: Library, r: Document, out: Document) {
    && out.status == (if r.status == Some(StatusSucceeded) then r.status else Some(StatusFailed))
    && Ending(l, r.output, 65536, out.output) && Ending(l, r.error, 4096, out.error) && Ending(l, r.diffStat, 16384, out.diffStat)
    && out.branch == (if r.branch == "" || l.validRef(r.branch) then r.branch else "")
    && out.commit == (if Trusted(l, r) then r.commit else "") && out.url == (if Trusted(l, r) then r.url else "")
  }

  lemma {:induction false} CoercedExactly(l: Library, r: Document)
    requires Sane(l)
    ensures var c := Coerced(l, r);
            && TextsOf(l, r, c) && c.patch == (if |r.patch| <= 393216 then r.patch else "")
            && (c.truncated <==> r.truncated || |r.output| > 65536 || |r.patch| > 393216)
  {
  }

  lemma {:induction false} BoundedForm(l: Library, r: Document)
    requires Sane(l)
    ensures Bounded(l, r) == if ReportSize(l, Coerced(l, r)) <= MAX_REPORT then Coerced(l, r) else WithoutPatch(Coerced(l, r))
  {
    CoercedValid(l, r);
    var c := Coerced(l, r);
    RestBound(l, WithoutPatch(c));
    RestBound(l, c);
    assert l.quoted(c.output) <= 6 * MAX_OUTPUT + 2;
    assert Shrunk(l, WithoutPatch(c), MAX_REPORT) == WithoutPatch(c);
  }

  /** The patch is reported if it fits, by itself and beside the rest, and
      what is gone of output or patch is flagged. */
  predicate PatchOf(l: Library, r: Document, out: Document) {
    && (var full := out.(patch := r.patch, truncated := r.truncated || |r.output| > 65536);
        out.patch == if |r.patch| <= 393216 && ReportSize(l, full) <= 921600 then r.patch else "")
    && (out.truncated <==> r.truncated || |r.output| > 65536 || out.patch != r.patch)
  }

  lemma {:induction false} PatchKept(l: Library, r: Document, c: Document, out: Document)
    requires TextsOf(l, r, c) && c.patch == (if |r.patch| <= 393216 then r.patch else "")
    requires c.truncated <==> r.truncated || |r.output| > 65536 || |r.patch| > 393216
    requires c.patch == "" ==> ReportSize(l, c) <= MAX_REPORT
    requires out == if ReportSize(l, c) <= MAX_REPORT then c else WithoutPatch(c)
    ensures TextsOf(l, r, out) && PatchOf(l, r, out)
  {
    if |r.patch| <= 393216 {
      assert out.(patch := r.patch, truncated := r.truncated || |r.output| > 65536) == c;
    }
  }

  /** What is reported, field by field: the ends of long texts; a branch, a
      commit and a URL that pass their checks; the patch if it fits. */
  lemma {:induction false} BoundedExactly(l: Library, r: Document)
    requires Sane(l)
    ensures TextsOf(l, r, Bounded(l, r)) && PatchOf(l, r, Bounded(l, r))
  {
    var c := Coerced(l, r);
    CoercedValid(l, r);
    CoercedExactly(l, r);
    BoundedForm(l, r);
    RestBound(l, c);
    assert l.quoted(c.output) <= 6 * MAX_OUTPUT + 2;
    PatchKept(l, r, c, Bounded(l, r));
  }

  /** A document already within the limits is reported unchanged, and so
      bounding twice changes nothing. */
  lemma {:induction false} BoundedKeeps(l: Library, r: Document)
    requires Sane(l) && Valid(l, r) && r.status != Some(StatusNoResult) && ReportSize(l, r) <= MAX_REPORT
    ensures Bounded(l, r) == r
  {
  }

  lemma {:induction false} BoundedTwice(l: Library, r: Document)
    requires Sane(l)
    ensures Bounded(l, Bounded(l, r)) == Bounded(l, r)
  {
    CoercedValid(l, r);
    ShrunkFits(l, Coerced(l, r), MAX_REPORT);
    BoundedKeeps(l, Bounded(l, r));
  }
}
