/** The search through an outgoing buffer for the receiver's ID, the word after the second ID tag. */
module RoutingScan {
  import opened SwarmTypes
  import opened Codec

  predicate TagAt(b: seq<byte>, i: int) {
    0 <= i && i + 1 < |b| && b[i] == TAG_I && b[i + 1] == TAG_D
  }

  ghost predicate NoTagIn(b: seq<byte>, from: int, to: int) {
    forall i :: from <= i < to ==> !TagAt(b, i)
  }

  ghost predicate NoTag(b: seq<byte>) {
    NoTagIn(b, 0, |b|)
  }

  /** The first tag in [from, size), or size when there is none. */
  function NextTag(b: seq<byte>, from: nat, size: nat): (i: nat)
    requires from <= size
    ensures from <= i <= size && NoTagIn(b, from, i)
    ensures i < size ==> TagAt(b, i)
    decreases size - from
  {
    if from == size || TagAt(b, from) then from else NextTag(b, from + 1, size)
  }

  lemma NextTagUnique(b: seq<byte>, from: nat, size: nat, i: nat)
    requires from <= i <= size && NoTagIn(b, from, i)
    requires i < size ==> TagAt(b, i)
    ensures NextTag(b, from, size) == i
  {
  }

  /** Where the second tag starts, or size when there are fewer than two. */
  function SecondTag(b: seq<byte>, size: nat): (j: nat)
    ensures j <= size
    ensures j < size ==> TagAt(b, j)
  {
    var i := NextTag(b, 0, size);
    if i == size then size else NextTag(b, i + 1, size)
  }

  /** The receiver the scan settles on. `mem` is the memory from the buffer's start, `size` the buffer's length. */
  function Receiver(mem: seq<byte>, size: nat): U32
    requires |mem| >= size + 6
  {
    var j := SecondTag(mem, size);
    if j < size then Decode(mem[j + 2..]) else if NextTag(mem, 0, size) < size then 1 else 0
  }

  /** The scan and the header check after it read nothing beyond the buffer exactly for these contents. */
  ghost predicate StaysInBuffer(b: seq<byte>) {
    var j := SecondTag(b, |b|);
    if j < |b| then j + 6 <= |b| else |b| >= 2 && b[|b| - 1] != TAG_I
  }

  /** The header check: it looks at the second tag's position, or at the buffer's start when there is none. */
  predicate HeaderOk(mem: seq<byte>, size: nat)
    requires |mem| >= size + 6
  {
    SecondTag(mem, size) < size || mem[0] == TAG_I || mem[1] == TAG_D
  }

  function Max(a: int, b: int): int {
    if a < b then b else a
  }

  /** The search loop; `top` is the highest offset it has read, -1 for none. */
  method FindReceiver(mem: seq<byte>, size: nat) returns (receiver: U32, index: nat, top: int)
    requires |mem| >= size + 6
    ensures receiver == Receiver(mem, size)
    ensures SecondTag(mem, size) < size ==> index == SecondTag(mem, size) && top == index + 5
    ensures SecondTag(mem, size) == size ==> index == 0
    ensures SecondTag(mem, size) == size ==> top == if 0 < size && mem[size - 1] == TAG_I then size else size - 1
  {
    receiver, index, top := 0, 0, -1;
    var i := 0;
    while i < size
      invariant i <= size
      invariant receiver == if NextTag(mem, 0, i) < i then 1 else 0
      invariant receiver == 1 ==> NoTagIn(mem, NextTag(mem, 0, i) + 1, i)
      invariant index == 0 && top == if 0 < i && mem[i - 1] == TAG_I then i else i - 1
    {
      top := Max(top, if mem[i] == TAG_I then i + 1 else i);
      ghost var first := NextTag(mem, 0, i);
      if mem[i] == TAG_I && mem[i + 1] == TAG_D {
        if receiver == 0 {
          NextTagUnique(mem, 0, i + 1, i);
          receiver := 1;
        } else {
          NextTagUnique(mem, 0, size, first);
          NextTagUnique(mem, first + 1, size, i);
          receiver := Decode(mem[i + 2..]);
          top := i + 5;
          index := i;
          return;
        }
      } else {
        NextTagUnique(mem, 0, i + 1, if receiver == 1 then first else i + 1);
      }
      i := i + 1;
    }
    if receiver == 1 {
      NextTagUnique(mem, NextTag(mem, 0, size) + 1, size, size);
    }
  }

  /** The scan as the send handler runs it, with the header check behind it. */
  method Scan(mem: seq<byte>, size: nat) returns (receiver: U32, headerOk: bool, top: int)
    requires |mem| >= size + 6
    ensures receiver == Receiver(mem, size)
    ensures headerOk == HeaderOk(mem, size)
    ensures top < size <==> StaysInBuffer(mem[..size])
  {
    var index;
    receiver, index, top := FindReceiver(mem, size);
    headerOk := mem[index] == TAG_I || mem[index + 1] == TAG_D;
    top := Max(top, if mem[index] == TAG_I then index else index + 1);
    TagsOfPrefix(mem, size);
  }

  /** Only a tag that straddles the buffer's end can make the memory behind the buffer matter. */
  lemma TagsOfPrefix(mem: seq<byte>, size: nat)
    requires |mem| > size
    ensures var b := mem[..size];
            SecondTag(b, size) < size ==> SecondTag(mem, size) == SecondTag(b, size)
    ensures var b := mem[..size];
            SecondTag(b, size) == size && SecondTag(mem, size) < size ==> SecondTag(mem, size) == size - 1
  {
    var b := mem[..size];
    assert forall i | 0 <= i < size - 1 :: TagAt(b, i) == TagAt(mem, i);
    var i := NextTag(b, 0, size);
    if i < size {
      NextTagUnique(mem, 0, size, i);
      var j := NextTag(b, i + 1, size);
      if j < size {
        NextTagUnique(mem, i + 1, size, j);
      }
    }
  }

  /** While the scan stays in the buffer, what lies behind the buffer cannot change the receiver or the check. */
  lemma ReceiverIgnoresMemory(mem: seq<byte>, other: seq<byte>, size: nat)
    requires |mem| >= size + 6 && |other| >= size + 6 && mem[..size] == other[..size]
    requires StaysInBuffer(mem[..size])
    ensures Receiver(mem, size) == Receiver(other, size)
    ensures HeaderOk(mem, size) == HeaderOk(other, size)
  {
    var b := mem[..size];
    TagsOfPrefix(mem, size);
    TagsOfPrefix(other, size);
    assert forall i | 0 <= i < size :: mem[i] == b[i] && other[i] == b[i];
    assert forall i | 0 <= i < size - 1 :: TagAt(mem, i) == TagAt(b, i) && TagAt(other, i) == TagAt(b, i);
    var j := SecondTag(b, size);
    if j == size {
      assert !TagAt(mem, size - 1) && !TagAt(other, size - 1);
      var i := NextTag(mem, 0, size);
      NextTagUnique(other, 0, size, i);
    }
  }

  /** The receiver by the tags in the buffer: none gives 0, a single one gives 1, and otherwise it is the word behind
      the second one, most significant byte first. The header check fails exactly if there are fewer than two and the
      buffer starts with neither tag byte where it should. */
  lemma ReceiverByTags(mem: seq<byte>, size: nat, i: nat, j: nat)
    requires |mem| >= size + 6 && NoTagIn(mem, 0, i) && NoTagIn(mem, i + 1, j)
    ensures i == size ==> Receiver(mem, size) == 0
    ensures i < j == size && TagAt(mem, i) ==> Receiver(mem, size) == 1
    ensures i < j < size && TagAt(mem, i) && TagAt(mem, j) ==> Encode(Receiver(mem, size)) == mem[j + 2..j + 6]
    ensures i < j < size && TagAt(mem, i) && TagAt(mem, j) ==> HeaderOk(mem, size)
    ensures i == size || (i < j == size && TagAt(mem, i)) ==>
              (HeaderOk(mem, size) <==> mem[0] == TAG_I || mem[1] == TAG_D)
  {
    if i == size {
      NextTagUnique(mem, 0, size, i);
    } else if i < j <= size && TagAt(mem, i) {
      NextTagUnique(mem, 0, size, i);
      if j == size || TagAt(mem, j) {
        NextTagUnique(mem, i + 1, size, j);
        EncodeDecode(mem[j + 2..j + 6]);
        assert Decode(mem[j + 2..]) == Decode(mem[j + 2..j + 6]);
      }
    }
  }

  /** Where the tags of `pre ++ frame ++ rest` lie, byte by byte up to the destination's tag. */
  lemma TagsOfFramed(pre: seq<byte>, src: U32, dst: U32, rest: seq<byte>)
    ensures var b := pre + Header(src, dst) + rest;
            && (forall i | 0 <= i < |pre| :: TagAt(b, i) == TagAt(pre, i))
            && TagAt(b, |pre|) && !TagAt(b, |pre| + 1)
            && (forall i | 0 <= i < 4 :: TagAt(b, |pre| + 2 + i) == TagAt(Encode(src), i))
            && TagAt(b, |pre| + 6)
  {
    var b := pre + Header(src, dst) + rest;
    assert forall i | 0 <= i < |pre| :: b[i] == pre[i];
    assert forall i | 0 <= i < 12 :: b[|pre| + i] == Header(src, dst)[i];
    assert forall i | 0 <= i < 4 :: b[|pre| + 2 + i] == Encode(src)[i];
  }

  /** The scan lands on the destination's tag exactly when neither the prefix nor the source ID looks like a tag. */
  lemma ScanFindsDestination(pre: seq<byte>, src: U32, dst: U32, rest: seq<byte>, size: nat)
    requires |pre| + 12 <= size <= |pre| + 12 + |rest|
    ensures SecondTag(pre + Header(src, dst) + rest, size) == |pre| + 6
            <==> NoTag(pre) && NoTag(Encode(src))
  {
    var b := pre + Header(src, dst) + rest;
    var n := |pre|;
    TagsOfFramed(pre, src, dst, rest);
    var i := NextTag(b, 0, size);
    if NoTag(pre) {
      NextTagUnique(b, 0, size, n);
      if NoTag(Encode(src)) {
        assert forall k | n + 1 <= k < n + 6 :: !TagAt(b, k) by {
          assert forall k | n + 2 <= k < n + 6 :: TagAt(b, k) == TagAt(Encode(src), k - n - 2) by {
            forall k | n + 2 <= k < n + 6 ensures TagAt(b, k) == TagAt(Encode(src), k - n - 2) {
              assert TagAt(b, n + 2 + (k - n - 2)) == TagAt(Encode(src), k - n - 2);
            }
          }
        }
        NextTagUnique(b, n + 1, size, n + 6);
      } else {
        var k :| 0 <= k < 4 && TagAt(Encode(src), k);
        assert TagAt(b, n + 2 + k);
      }
    } else {
      var k :| 0 <= k < n && TagAt(pre, k);
      assert TagAt(b, k) && i <= k;
      assert TagAt(b, n);
    }
  }

  /** A framed buffer is routed to its destination, without a read past its end, whatever the memory behind it. */
  lemma RouteFramed(pre: seq<byte>, src: U32, dst: U32, payload: seq<byte>, post: seq<byte>, behind: seq<byte>)
    requires NoTag(pre) && NoTag(Encode(src))
    requires |behind| >= 6
    ensures var b := pre + Frame(src, dst, payload) + post;
            && Receiver(b + behind, |b|) == dst
            && HeaderOk(b + behind, |b|)
            && StaysInBuffer(b)
  {
    var b := pre + Frame(src, dst, payload) + post;
    var rest := payload + post;
    assert b == pre + Header(src, dst) + rest;
    ScanFindsDestination(pre, src, dst, rest, |b|);
    assert b + behind == pre + Header(src, dst) + (rest + behind);
    ScanFindsDestination(pre, src, dst, rest + behind, |b|);
    var m := b + behind;
    assert m[|pre| + 8..|pre| + 12] == Encode(dst) by {
      assert Header(src, dst)[8..12] == Encode(dst);
    }
    DecodeEncode(dst);
  }

  /** The numbered IDs never look like a tag, so every node of the ten-column network can be a source. */
  lemma NumberedIdHasNoTag(id: U32)
    requires InColumns(id)
    ensures NoTag(Encode(id))
  {
  }
}
