/** The host file, read round-robin one line at a time. */
module HostFile {
  import opened SwarmTypes

  /** A line of the file as the connection task parses it: an endpoint, or `part` of one before the parse stopped. */
  datatype Line = Endpoint(host: string, port: int) | Malformed(part: string)

  /** The line the next read returns and the cursor behind it, for a file of n > 0 lines. */
  function Fetched(n: nat, cursor: nat): nat
    requires 0 < n
  {
    if cursor < n then cursor else 0
  }

  class Reader {
    const lines: seq<Line>
    var cursor: nat

    ghost predicate Valid()
      reads this
    {
      cursor <= |lines|
    }

    constructor (lines: seq<Line>)
      ensures Valid() && this.lines == lines && cursor == 0
    {
      this.lines := lines;
      cursor := 0;
    }

    /** Reads the next line; at the end of the file it rewinds and reads once more. None when nothing was read. */
    method GetEntry() returns (entry: Option<Line>)
      requires Valid()
      modifies this
      ensures Valid()
      ensures |lines| == 0 ==> entry == None && cursor == 0
      ensures |lines| > 0 ==>
                var i := Fetched(|lines|, old(cursor));
                entry == Some(lines[i]) && cursor == i + 1
    {
      entry := None;
      if cursor < |lines| {
        entry := Some(lines[cursor]);
        cursor := cursor + 1;
      }
      if entry == None {
        cursor := 0;
        if cursor < |lines| {
          entry := Some(lines[cursor]);
          cursor := cursor + 1;
        }
      }
    }
  }

  /** The line number that the k-th of a series of reads returns, counting from 0. */
  function ReadAt(n: nat, cursor: nat, k: nat): (i: nat)
    requires 0 < n
    ensures i < n
    decreases k
  {
    var i := Fetched(n, cursor);
    if k == 0 then i else ReadAt(n, i + 1, k - 1)
  }

  lemma {:induction false} ReadAtNext(n: nat, cursor: nat, k: nat)
    requires 0 < n
    ensures ReadAt(n, cursor, k + 1) == Fetched(n, ReadAt(n, cursor, k) + 1)
    decreases k
  {
    if k > 0 {
      ReadAtNext(n, Fetched(n, cursor) + 1, k - 1);
    }
  }

  lemma ModWrap(q: nat, n: nat)
    requires 0 < n
    ensures (q + n) % n == q % n
  {
    var d: int := q / n;
    assert q == d * n + q % n;
    assert q + n == (d + 1) * n + q % n;
    DivModUnique(q + n, n, d + 1, q % n);
  }

  lemma DivModUnique(a: int, n: nat, q: int, r: nat)
    requires 0 < n && a == q * n + r && r < n
    ensures a % n == r
  {
    assert a == a / n * n + a % n;
    var d := q - a / n;
    MultipleIsFar(d, n);
    assert d * n == a % n - r;
  }

  lemma MultipleIsFar(d: int, n: int)
    requires 0 <= n
    ensures d >= 1 ==> d * n >= n
    ensures d <= -1 ==> d * n <= -n
  {
  }

  /** The k-th read from cursor c returns line (c + k) mod n; from the start of the file, line k mod n. */
  lemma {:induction false} RoundRobin(n: nat, cursor: nat, k: nat)
    requires 0 < n && cursor <= n
    ensures ReadAt(n, cursor, k) == (cursor + k) % n
    decreases k
  {
    var i := Fetched(n, cursor);
    if cursor == n {
      ModWrap(k, n);
    }
    if k == 0 {
      DivModUnique(i, n, 0, i);
    } else {
      RoundRobin(n, i + 1, k - 1);
    }
  }

  /** Any n consecutive reads return every line, and none of them twice. */
  lemma EveryLineOnce(n: nat, cursor: nat, line: nat)
    requires 0 < n && cursor <= n && line < n
    ensures exists k: nat | k < n :: ReadAt(n, cursor, k) == line
    ensures forall j: nat, k: nat | j < n && k < n && ReadAt(n, cursor, j) == ReadAt(n, cursor, k) :: j == k
  {
    var i := Fetched(n, cursor);
    forall k: nat | k < n
      ensures ReadAt(n, cursor, k) == if i + k < n then i + k else i + k - n
    {
      RoundRobin(n, cursor, k);
      if cursor == n {
        ModWrap(k, n);
      }
      if i + k < n {
        DivModUnique(i + k, n, 0, i + k);
      } else {
        DivModUnique(i + k, n, 1, i + k - n);
      }
    }
    var k := if i <= line then line - i else line + n - i;
    assert ReadAt(n, cursor, k) == line;
  }
}
