/** The buffer the connection task parses host names into. It is never cleared, so the endpoint check, which looks at
    eight raw characters of it, can meet what an earlier and longer host left behind. */
module ParseBuffer {
  import opened HostFile
  import opened ClientPool

  type HostBuffer = s: string | |s| == HOST_BUFFER witness seq(HOST_BUFFER, _ => NUL)

  function Cleared(): HostBuffer {
    seq(HOST_BUFFER, _ => NUL)
  }

  function Text(line: Line): string {
    match line
    case Endpoint(host, _) => host
    case Malformed(part) => part
  }

  predicate LineFits(line: Line) {
    HostFits(Text(line))
  }

  ghost predicate LinesFit(lines: seq<Line>) {
    forall i | 0 <= i < |lines| :: LineFits(lines[i])
  }

  /** The parse buffer after a line. */
  function Parsed(buf: HostBuffer, line: Line): HostBuffer
    requires LineFits(line)
  {
    match line
    case Endpoint(host, _) => Written(buf, host)
    case Malformed(part) => if part == "" then buf else Written(buf, part)
  }

  /** A line leaves its host, or the part of it that was read, with a NUL behind it in front of the buffer's older
      characters; when nothing was read the buffer stays as it was. */
  lemma ParsedExact(buf: HostBuffer, line: Line)
    requires LineFits(line)
    ensures line.Endpoint? ==> Parsed(buf, line) == line.host + [NUL] + buf[|line.host| + 1..]
    ensures line.Malformed? && line.part != "" ==> Parsed(buf, line) == line.part + [NUL] + buf[|line.part| + 1..]
    ensures line == Malformed("") ==> Parsed(buf, line) == buf
  {
    WrittenIsCString(buf, Text(line));
  }

  /** After this line the endpoint check meets the line's host and nothing older. */
  predicate Clean(buf: HostBuffer, line: Line)
    requires LineFits(line)
  {
    line.Endpoint? ==> ReadsAs(Parsed(buf, line), line.host)
  }

  /** The parse buffer after k lines. */
  ghost function BufferAfter(lines: seq<Line>, buf: HostBuffer, cursor: nat, k: nat): HostBuffer
    requires |lines| > 0 && LinesFit(lines)
  {
    if k == 0 then buf
    else Parsed(BufferAfter(lines, buf, cursor, k - 1), lines[ReadAt(|lines|, cursor, k - 1)])
  }

  /** From this buffer and cursor on, the endpoint check meets every line's host and nothing older. */
  ghost predicate ReadsClean(lines: seq<Line>, buf: HostBuffer, cursor: nat) {
    && LinesFit(lines)
    && (|lines| > 0 ==> forall k: nat :: CleanAt(lines, buf, cursor, k))
  }

  ghost predicate CleanAt(lines: seq<Line>, buf: HostBuffer, cursor: nat, k: nat)
    requires |lines| > 0 && LinesFit(lines)
  {
    Clean(BufferAfter(lines, buf, cursor, k), lines[ReadAt(|lines|, cursor, k)])
  }

  lemma {:induction false} BufferShift(lines: seq<Line>, buf: HostBuffer, cursor: nat, k: nat)
    requires |lines| > 0 && LinesFit(lines)
    ensures var i := Fetched(|lines|, cursor);
            BufferAfter(lines, buf, cursor, k + 1) == BufferAfter(lines, Parsed(buf, lines[i]), i + 1, k)
  {
    if k > 0 {
      BufferShift(lines, buf, cursor, k - 1);
    }
  }

  /** Reading a line goes on reading clean. */
  lemma ReadsCleanOn(lines: seq<Line>, buf: HostBuffer, cursor: nat)
    requires |lines| > 0 && ReadsClean(lines, buf, cursor)
    ensures var i := Fetched(|lines|, cursor);
            Clean(buf, lines[i]) && ReadsClean(lines, Parsed(buf, lines[i]), i + 1)
  {
    var i := Fetched(|lines|, cursor);
    assert CleanAt(lines, buf, cursor, 0);
    var buf' := Parsed(buf, lines[i]);
    var cursor' := i + 1;
    forall k: nat
      ensures CleanAt(lines, buf', cursor', k)
    {
      assert CleanAt(lines, buf, cursor, k + 1);
      BufferShift(lines, buf, cursor, k);
    }
  }

  // ---- which files read clean ----

  /** The line d lines before line i, going round the file. */
  function Back(n: nat, i: nat, d: nat): (j: nat)
    requires i < n && d <= n
    ensures j < n || (i == 0 && d == 0)
  {
    if d <= i then i - d else i + n - d
  }

  /** The length of the last line before line i, starting d lines back and going round the file, that is at least p
      characters long; 0 when there is none. */
  function LastReaching(lines: seq<Line>, i: nat, p: nat, d: nat): nat
    requires i < |lines| && d <= |lines|
    decreases |lines| - d
  {
    if d == |lines| then 0
    else
      var length := |Text(lines[Back(|lines|, i, d)])|;
      if length >= p then length else LastReaching(lines, i, p, d + 1)
  }

  /** Wherever a host is too short to fill what the check looks at, the place behind it was last reached by a line that
      ended, and so put its NUL, exactly there, or never reached at all. */
  ghost predicate FileSafe(lines: seq<Line>) {
    && LinesFit(lines)
    && forall i, p | 0 <= i < |lines| && lines[i].Endpoint? && |lines[i].host| < p < COMPARED ::
         LastReaching(lines, i, p, 1) == 0 || LastReaching(lines, i, p, 1) == p
  }

  /** The length of the last of the first k lines read that is at least p characters long; 0 when there is none. */
  ghost function LastRead(lines: seq<Line>, p: nat, k: nat): nat
    requires |lines| > 0
  {
    if k == 0 then 0
    else
      var length := |Text(lines[ReadAt(|lines|, 0, k - 1)])|;
      if length >= p then length else LastRead(lines, p, k - 1)
  }

  lemma ParsedAt(buf: HostBuffer, line: Line, p: nat)
    requires LineFits(line) && 0 < p < HOST_BUFFER
    ensures Parsed(buf, line)[p] == NUL
            <==> |Text(line)| == p || (|Text(line)| < p && buf[p] == NUL)
  {
    if |Text(line)| > p {
      assert Text(line)[p] in Text(line);
    }
  }

  /** The character the buffer holds at p is the NUL of a line of length p, or was never written. */
  lemma {:induction false} WhoWroteLast(lines: seq<Line>, p: nat, k: nat)
    requires |lines| > 0 && LinesFit(lines) && 0 < p < HOST_BUFFER
    ensures BufferAfter(lines, Cleared(), 0, k)[p] == NUL <==> LastRead(lines, p, k) == 0 || LastRead(lines, p, k) == p
  {
    if k > 0 {
      WhoWroteLast(lines, p, k - 1);
      ParsedAt(BufferAfter(lines, Cleared(), 0, k - 1), lines[ReadAt(|lines|, 0, k - 1)], p);
    }
  }

  lemma ReadBack(n: nat, k: nat, d: nat)
    requires 0 < d < n && d <= k
    ensures ReadAt(n, 0, k - d) == Back(n, ReadAt(n, 0, k), d)
  {
    RoundRobin(n, 0, k);
    RoundRobin(n, 0, k - d);
    var i := ReadAt(n, 0, k);
    var c: int := k / n;
    assert k == c * n + i;
    if d <= i {
      DivModUnique(k - d, n, c, i - d);
    } else {
      assert k - d == (c - 1) * n + (i + n - d);
      DivModUnique(k - d, n, c - 1, i + n - d);
    }
  }

  lemma {:induction false} NoneReads(lines: seq<Line>, p: nat, k: nat)
    requires |lines| > 0 && forall i | 0 <= i < |lines| :: |Text(lines[i])| < p
    ensures LastRead(lines, p, k) == 0
  {
    if k > 0 {
      NoneReads(lines, p, k - 1);
    }
  }

  /** Looking back through the reads and going back round the file come to the same line, unless the reads began
      after it. */
  lemma {:induction false} LastReadIsLastReaching(lines: seq<Line>, i: nat, p: nat, k: nat, d: nat)
    requires i < |lines| && ReadAt(|lines|, 0, k) == i && |Text(lines[i])| < p
    requires 0 < d <= |lines| && d <= k + 1
    requires forall e | 0 < e < d :: |Text(lines[Back(|lines|, i, e)])| < p
    ensures LastRead(lines, p, k + 1 - d) == 0 || LastRead(lines, p, k + 1 - d) == LastReaching(lines, i, p, d)
    ensures k >= |lines| ==> LastRead(lines, p, k + 1 - d) == LastReaching(lines, i, p, d)
    decreases |lines| - d
  {
    if d == |lines| {
      forall j | 0 <= j < |lines|
        ensures |Text(lines[j])| < p
      {
        if j != i {
          var e := if j < i then i - j else i + |lines| - j;
          assert Back(|lines|, i, e) == j;
        }
      }
      NoneReads(lines, p, k + 1 - d);
    } else if d <= k {
      ReadBack(|lines|, k, d);
      if |Text(lines[Back(|lines|, i, d)])| < p {
        LastReadIsLastReaching(lines, i, p, k, d + 1);
      }
    }
  }

  lemma ReadAgain(n: nat, i: nat)
    requires i < n
    ensures ReadAt(n, 0, n + i) == i
  {
    RoundRobin(n, 0, n + i);
    DivModUnique(n + i, n, 1, i);
  }

  /** The reads in front of reading k of line i leave no more than the file does, and the same from the second round. */
  lemma ReadsLeave(lines: seq<Line>, i: nat, p: nat, k: nat)
    requires i < |lines| && ReadAt(|lines|, 0, k) == i && |Text(lines[i])| < p
    ensures LastRead(lines, p, k) == 0 || LastRead(lines, p, k) == LastReaching(lines, i, p, 1)
    ensures k >= |lines| ==> LastRead(lines, p, k) == LastReaching(lines, i, p, 1)
  {
    LastReadIsLastReaching(lines, i, p, k, 1);
  }

  /** Behind a short host the check meets whatever the buffer held there. */
  lemma CleanIff(buf: HostBuffer, line: Line)
    requires line.Endpoint? && LineFits(line)
    ensures Clean(buf, line) <==> forall p | |line.host| < p < COMPARED :: buf[p] == NUL
  {
    var raw := Parsed(buf, line);
    assert forall p | |line.host| < p < HOST_BUFFER :: raw[p] == buf[p];
    assert forall i | 0 <= i < COMPARED && i <= |line.host| :: raw[i] == CharAt(line.host, i);
  }

  /** A file whose second round is dirty at line i. */
  lemma SecondRoundDirty(lines: seq<Line>, i: nat, p: nat)
    requires LinesFit(lines) && i < |lines| && lines[i].Endpoint? && |lines[i].host| < p < COMPARED
    requires LastReaching(lines, i, p, 1) != 0 && LastReaching(lines, i, p, 1) != p
    ensures ReadAt(|lines|, 0, |lines| + i) == i
    ensures !Clean(BufferAfter(lines, Cleared(), 0, |lines| + i), lines[i])
  {
    var k := |lines| + i;
    ReadAgain(|lines|, i);
    ReadsLeave(lines, i, p, k);
    WhoWroteLast(lines, p, k);
    CleanIff(BufferAfter(lines, Cleared(), 0, k), lines[i]);
  }

  /** From the cleared buffer and the start of the file, exactly the safe files read clean for ever. */
  lemma SafeIffReadsClean(lines: seq<Line>)
    requires LinesFit(lines)
    ensures FileSafe(lines) <==> ReadsClean(lines, Cleared(), 0)
  {
    if FileSafe(lines) {
      forall k: nat | |lines| > 0
        ensures CleanAt(lines, Cleared(), 0, k)
      {
        SafeReadsClean(lines, k);
      }
    } else {
      var i, p :| 0 <= i < |lines| && lines[i].Endpoint? && |lines[i].host| < p < COMPARED
                  && LastReaching(lines, i, p, 1) != 0 && LastReaching(lines, i, p, 1) != p;
      SecondRoundDirty(lines, i, p);
      assert !CleanAt(lines, Cleared(), 0, |lines| + i);
    }
  }

  lemma SafeReadsClean(lines: seq<Line>, k: nat)
    requires FileSafe(lines) && |lines| > 0
    ensures CleanAt(lines, Cleared(), 0, k)
  {
    var i := ReadAt(|lines|, 0, k);
    var buf := BufferAfter(lines, Cleared(), 0, k);
    if lines[i].Endpoint? {
      forall p | |lines[i].host| < p < COMPARED
        ensures buf[p] == NUL
      {
        ReadsLeave(lines, i, p, k);
        WhoWroteLast(lines, p, k);
        assert LastReaching(lines, i, p, 1) == 0 || LastReaching(lines, i, p, 1) == p;
      }
      CleanIff(buf, lines[i]);
    }
  }

  /** Hosts as long as a dotted quad read clean whatever the buffer held. */
  lemma LongHostsReadClean(lines: seq<Line>, buf: HostBuffer, cursor: nat)
    requires LinesFit(lines) && forall i | 0 <= i < |lines| && lines[i].Endpoint? :: HostTrusted(lines[i].host)
    ensures ReadsClean(lines, buf, cursor)
  {
    forall k: nat | |lines| > 0
      ensures CleanAt(lines, buf, cursor, k)
    {
      var line := lines[ReadAt(|lines|, cursor, k)];
      if line.Endpoint? {
        CleanIff(BufferAfter(lines, buf, cursor, k), line);
      }
    }
  }
}
