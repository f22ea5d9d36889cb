/** The connection mask: which of the ten numbered nodes this node may send to. */
module ConnectionMask {
  import opened SwarmTypes

  /** A row of the mask file: the characters up to the next white space. */
  type Row = seq<byte>

  /** The mask file as it stands when it is opened: missing, or its rows. */
  type File = Option<seq<Row>>

  /** The line buffer the rows are read into, one after the other. */
  const LINE_BUFFER: nat := MAX_CLIENTS + 1

  type LineBuffer = b: seq<byte> | |b| == LINE_BUFFER witness seq(LINE_BUFFER, _ => 0)

  type MaskRow = m: seq<byte> | |m| == MAX_CLIENTS witness seq(MAX_CLIENTS, _ => 0)

  /** What one look at the mask meets: the file, what the stack held where the line buffer and the result of the last
      read will be, and the bytes that lie at each offset beyond the mask. */
  datatype Look = Look(file: File, stack: LineBuffer, count: byte, beyond: U32 -> byte)

  const ONE: byte := 0x31

  /** The line buffer after a row was read into it. Of a row longer than the buffer this is what the buffer holds. */
  function Scanned(line: LineBuffer, row: Row): LineBuffer {
    seq(LINE_BUFFER, i requires 0 <= i < LINE_BUFFER => if i < |row| then row[i] else if i == |row| then 0 else line[i])
  }

  /** The line buffer after k reads; behind the last row a read leaves it alone. */
  function LineAfter(rows: seq<Row>, stack: LineBuffer, k: nat): LineBuffer {
    if k == 0 then stack
    else if k <= |rows| then Scanned(LineAfter(rows, stack, k - 1), rows[k - 1])
    else LineAfter(rows, stack, k - 1)
  }

  /** The 8-bit difference of a character from '0'. */
  function Digit(c: byte): byte {
    var wide: int := c;
    (wide - 0x30) % 0x100
  }

  function Digits(line: LineBuffer): MaskRow {
    seq(MAX_CLIENTS, i requires 0 <= i < MAX_CLIENTS => Digit(line[i]))
  }

  /** The mask in memory after the file has been looked at; a negative node number reads no row at all. */
  function Refreshed(mask: MaskRow, node: int, look: Look): MaskRow {
    match look.file
    case None => mask
    case Some(rows) =>
      if node >= 0 then Digits(LineAfter(rows, look.stack, node + 1))
      else if look.count != 0 then Digits(look.stack)
      else mask
  }

  /** The offset from the mask that an ID is looked up at, a 32-bit difference. */
  function Column(id: U32): U32 {
    (id - BASE_ID) % 0x1_0000_0000
  }

  /** Whether the byte at an ID's offset is 1. For an ID without a column that byte lies outside the mask. */
  predicate Allows(mask: MaskRow, beyond: U32 -> byte, id: U32) {
    (if Column(id) < MAX_CLIENTS then mask[Column(id)] else beyond(Column(id))) == 1
  }

  lemma ColumnsAreInside(id: U32)
    ensures Column(id) < MAX_CLIENTS <==> InColumns(id)
    ensures InColumns(id) ==> Column(id) == id - BASE_ID
  {
  }

  class Mask {
    /** The node's own row number, its device ID less BASE_ID as a signed difference. */
    const node: int
    const entries: array<byte>

    ghost predicate Valid() {
      entries.Length == MAX_CLIENTS
    }

    /** Before any file is read everything but column 0 is allowed. */
    constructor (node: int)
      ensures Valid() && this.node == node && fresh(entries)
      ensures forall id, beyond: U32 -> byte | InColumns(id) :: Allows(entries[..], beyond, id) <==> id != BASE_ID
    {
      this.node := node;
      entries := new byte[MAX_CLIENTS];
      new;
      for i := 0 to MAX_CLIENTS
        invariant forall j | 0 <= j < i :: entries[j] == 1
      {
        entries[i] := 1;
      }
      entries[0] := 0;
    }

    method Update(look: Look)
      requires Valid()
      modifies entries
      ensures entries[..] == Refreshed(old(entries[..]), node, look)
    {
      match look.file
      case None =>
      case Some(rows) =>
        var line := look.stack;
        var count := look.count;
        var i := 0;
        while i <= node
          invariant i == 0 || 0 < i <= node + 1
          invariant line == LineAfter(rows, look.stack, i)
          invariant count == if i == 0 then look.count else if i <= |rows| then 1 else 0xFF
        {
          if i < |rows| {
            line, count := Scanned(line, rows[i]), 1;
          } else {
            count := 0xFF;
          }
          i := i + 1;
        }
        if count != 0 {
          for i := 0 to MAX_CLIENTS
            invariant forall j | 0 <= j < i :: entries[j] == Digits(line)[j]
          {
            entries[i] := Digit(line[i]);
          }
          assert entries[..] == Digits(line);
        }
    }

    /** Rereads the file and answers for one ID. */
    method Check(id: U32, look: Look) returns (allowed: bool)
      requires Valid()
      modifies entries
      ensures entries[..] == Refreshed(old(entries[..]), node, look)
      ensures allowed == Allows(entries[..], look.beyond, id)
    {
      var column := (id - BASE_ID) % 0x1_0000_0000;
      Update(look);
      allowed := (if column < MAX_CLIENTS then entries[column] else look.beyond(column)) == 1;
    }
  }

  /** With a file that has the node's row and in it the ID's column, the answer is whether the digit there is 1. */
  lemma CheckReadsOwnRow(mask: MaskRow, node: int, look: Look, id: U32)
    requires look.file.Some? && 0 <= node < |look.file.value|
    requires InColumns(id) && id - BASE_ID <= |look.file.value[node]|
    ensures var row := look.file.value[node];
            Allows(Refreshed(mask, node, look), look.beyond, id)
            <==> id - BASE_ID < |row| && row[id - BASE_ID] == ONE
  {
    ColumnsAreInside(id);
    var c := LineAfter(look.file.value, look.stack, node + 1)[id - BASE_ID];
    assert Digit(c) == 1 <==> c == ONE;
  }

  /** Row r is the last of the first k rows that reaches column c, if only with its end. */
  ghost predicate LastToReach(rows: seq<Row>, k: nat, c: nat, r: nat) {
    r < k && r < |rows| && |rows[r]| >= c && forall l | r < l < k && l < |rows| :: |rows[l]| < c
  }

  /** The line buffer holds in each column what the last row that reaches it put there, and zero where that row ends;
      where no row reaches, it holds what the stack held. */
  lemma {:induction false} ColumnHolds(rows: seq<Row>, stack: LineBuffer, k: nat, c: nat)
    requires c < LINE_BUFFER
    ensures forall r: nat | LastToReach(rows, k, c, r) ::
              LineAfter(rows, stack, k)[c] == if c < |rows[r]| then rows[r][c] else 0
    ensures (forall l | 0 <= l < k && l < |rows| :: |rows[l]| < c) ==> LineAfter(rows, stack, k)[c] == stack[c]
  {
    if k > 0 {
      ColumnHolds(rows, stack, k - 1, c);
      forall r: nat | LastToReach(rows, k, c, r)
        ensures LineAfter(rows, stack, k)[c] == if c < |rows[r]| then rows[r][c] else 0
      {
        assert r < k - 1 ==> LastToReach(rows, k - 1, c, r);
      }
    }
  }

  /** With a file the entry for a column is the character that the last row to reach it, of the node's own and those
      above it, has there, less the character 0; the node may send there exactly if it is a 1. */
  lemma CheckReadsLastToReach(mask: MaskRow, node: int, look: Look, id: U32, r: nat)
    requires look.file.Some? && node >= 0 && InColumns(id)
    requires LastToReach(look.file.value, node + 1, id - BASE_ID, r)
    ensures var (row, c) := (look.file.value[r], id - BASE_ID);
            var entry: int := Refreshed(mask, node, look)[c];
            && (c < |row| ==> (entry + 0x30) % 0x100 == row[c])
            && (Allows(Refreshed(mask, node, look), look.beyond, id) <==> c < |row| && row[c] == ONE)
  {
    ColumnsAreInside(id);
    ColumnHolds(look.file.value, look.stack, node + 1, id - BASE_ID);
  }

  /** Where no row reaches, or none is read because the node's number is negative, what the stack held decides. */
  lemma StackDecides(mask: MaskRow, node: int, look: Look, id: U32)
    requires look.file.Some? && InColumns(id) && (node < 0 ==> look.count != 0)
    requires forall l | 0 <= l <= node && l < |look.file.value| :: |look.file.value[l]| < id - BASE_ID
    ensures Allows(Refreshed(mask, node, look), look.beyond, id) <==> look.stack[id - BASE_ID] == ONE
  {
    ColumnsAreInside(id);
    if node >= 0 {
      ColumnHolds(look.file.value, look.stack, node + 1, id - BASE_ID);
    }
    assert Digit(look.stack[id - BASE_ID]) == 1 <==> look.stack[id - BASE_ID] == ONE;
  }

  /** Without a file the mask loaded before decides, and without a row read when the uninitialised count is zero. */
  lemma NoFileKeepsMask(mask: MaskRow, node: int, look: Look, id: U32)
    requires (look.file == None || (node < 0 && look.count == 0)) && InColumns(id)
    ensures Refreshed(mask, node, look) == mask
    ensures Allows(Refreshed(mask, node, look), look.beyond, id) <==> mask[id - BASE_ID] == 1
  {
    ColumnsAreInside(id);
  }

  /** An ID without a column is looked up outside the mask, as far behind its start as the ID is behind the first
      column's, going round 2^32. */
  lemma OthersReadBeyond(mask: MaskRow, node: int, look: Look, id: U32)
    requires !InColumns(id)
    ensures var at := if id >= BASE_ID then id - BASE_ID else id + 0x1_0000_0000 - BASE_ID;
            Allows(Refreshed(mask, node, look), look.beyond, id) <==> look.beyond(at) == 1
  {
    ColumnsAreInside(id);
  }

  lemma {:induction false} NothingBehindTheLastRow(rows: seq<Row>, stack: LineBuffer, k: nat)
    requires k >= |rows|
    ensures LineAfter(rows, stack, k) == LineAfter(rows, stack, |rows|)
  {
    if k > |rows| {
      NothingBehindTheLastRow(rows, stack, k - 1);
    }
  }

  /** A file too short for the node is read as if its last row were the node's; of a file without rows the mask is
      made from what the stack held. */
  lemma ShortFileUsesLastRow(mask: MaskRow, node: int, look: Look)
    requires look.file.Some? && |look.file.value| <= node
    ensures var rows := look.file.value;
            Refreshed(mask, node, look)
            == if rows == [] then Digits(look.stack) else Refreshed(mask, |rows| - 1, look)
  {
    NothingBehindTheLastRow(look.file.value, look.stack, node + 1);
  }
}
