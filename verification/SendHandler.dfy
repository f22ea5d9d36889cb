/** The send port: find the receiver in the buffer, ask the mask, send, and give the buffer back. */
module SendHandler {
  import opened SwarmTypes
  import opened Codec
  import opened RoutingScan
  import opened ConnectionMask
  import opened ClientPool
  import opened ClientSockets

  /** What the handler does with its buffer, in order. */
  datatype Event = Sent(slot: nat, data: seq<byte>) | Deallocated

  datatype SendStatus = SendOk | SendRetry | SendError

  /** What the handler finds around it: what each look at the mask meets (one per slot for a broadcast), the outcome
      of a send on each slot, whether a failed send left EPIPE, and what the uninitialised status variable holds. */
  datatype Surroundings = Surroundings(
    usesProtocol: bool,
    look: Look,
    looks: seq<Look>,
    outcomes: seq<SocketStatus>,
    brokenPipe: bool,
    leftover: SocketStatus)

  predicate Fits(e: Surroundings) {
    |e.looks| == MAX_CLIENTS && |e.outcomes| == MAX_CLIENTS
  }

  /** The state a send starts from. */
  datatype Before = Before(pool: Pool, mask: MaskRow, node: int)

  function ReceiverOf(e: Surroundings, mem: seq<byte>, size: nat): U32
    requires |mem| >= size + 6
  {
    if e.usesProtocol then Receiver(mem, size) else 0
  }

  /** The mask in memory when a broadcast comes to slot i: it is reread for open slots only. */
  function MaskAt(b: Before, e: Surroundings, i: nat): MaskRow
    requires Fits(e) && i <= MAX_CLIENTS
  {
    if i == 0 then b.mask
    else if b.pool[i - 1].open then Refreshed(MaskAt(b, e, i - 1), b.node, e.looks[i - 1])
    else MaskAt(b, e, i - 1)
  }

  /** A broadcast goes to a slot that is open and whose ID the mask, reread at that moment, lets through. */
  predicate Eligible(b: Before, e: Surroundings, i: nat)
    requires Fits(e) && i < MAX_CLIENTS
  {
    b.pool[i].open && Allows(Refreshed(MaskAt(b, e, i), b.node, e.looks[i]), e.looks[i].beyond, b.pool[i].id)
  }

  /** The slots before `end` that a broadcast is sent on, in the order of sending. */
  function Targets(b: Before, e: Surroundings, end: nat): (slots: seq<nat>)
    requires Fits(e) && end <= MAX_CLIENTS
    ensures forall i | i in slots :: i < end
  {
    if end == 0 then []
    else Targets(b, e, end - 1) + if Eligible(b, e, end - 1) then [end - 1] else []
  }

  function SendsOn(slots: seq<nat>, data: seq<byte>): (events: seq<Event>)
    ensures |events| == |slots|
  {
    seq(|slots|, i requires 0 <= i < |slots| => Sent(slots[i], data))
  }

  lemma SendsOnAppend(slots: seq<nat>, slot: nat, data: seq<byte>)
    ensures SendsOn(slots + [slot], data) == SendsOn(slots, data) + [Sent(slot, data)]
  {
  }

  predicate Admitted(b: Before, e: Surroundings, r: U32) {
    r != BROADCAST && Allows(Refreshed(b.mask, b.node, e.look), e.look.beyond, r) && ConnectedToId(b.pool, r)
  }

  predicate Unicasts(b: Before, e: Surroundings, r: U32) {
    r != 0 && Admitted(b, e, r)
  }

  /** Receiver 0 can only get as far as the socket lookup, which asserts that there is an ID. */
  predicate Asserts(b: Before, e: Surroundings, r: U32) {
    r == 0 && Admitted(b, e, r)
  }

  /** What one call sends. */
  function Sends(b: Before, e: Surroundings, r: U32, data: seq<byte>): seq<Event>
    requires Fits(e)
  {
    if r == BROADCAST then SendsOn(Targets(b, e, MAX_CLIENTS), data)
    else if Unicasts(b, e, r) then [Sent(LookUp(b.pool, r), data)]
    else []
  }

  /** Everything one call does with its buffer. */
  function Events(b: Before, e: Surroundings, mem: seq<byte>, size: nat): seq<Event>
    requires Fits(e) && |mem| >= size + 6
  {
    var r := ReceiverOf(e, mem, size);
    (if e.usesProtocol && !HeaderOk(mem, size) then [Deallocated] else [])
    + Sends(b, e, r, mem[..size])
    + if Asserts(b, e, r) then [] else [Deallocated]
  }

  /** The status of the last broadcast send among the first slots, or what the variable held. */
  function LastOutcome(e: Surroundings, slots: seq<nat>): SocketStatus
    requires Fits(e) && forall i | i in slots :: i < MAX_CLIENTS
  {
    if slots == [] then e.leftover
    else
      var last := slots[|slots| - 1];
      assert last in slots;
      e.outcomes[last]
  }

  /** What one call returns; None when an assertion failed. */
  function ResultOf(b: Before, e: Surroundings, r: U32): Option<SendStatus>
    requires Fits(e)
  {
    if r == BROADCAST then
      Some(if LastOutcome(e, Targets(b, e, MAX_CLIENTS)).Success? then SendOk else SendError)
    else if Asserts(b, e, r) then None
    else Some(if Unicasts(b, e, r) && !e.outcomes[LookUp(b.pool, r)].OtherError? then SendOk else SendError)
  }

  /** What a call leaves of the sockets. */
  function PoolAfter(b: Before, e: Surroundings, r: U32): Pool
    requires Fits(e)
  {
    var k := LookUp(b.pool, r);
    if Unicasts(b, e, r) && e.outcomes[k].OtherError? && e.brokenPipe then b.pool[k := Closed(b.pool[k])] else b.pool
  }

  /** And of the mask. */
  function MaskAfter(b: Before, e: Surroundings, r: U32): MaskRow
    requires Fits(e)
  {
    if r == BROADCAST then MaskAt(b, e, MAX_CLIENTS) else Refreshed(b.mask, b.node, e.look)
  }

  lemma {:induction false} TargetsExact(b: Before, e: Surroundings, end: nat)
    requires Fits(e) && end <= MAX_CLIENTS
    ensures forall i: nat :: i in Targets(b, e, end) <==> i < end && Eligible(b, e, i)
    ensures forall j, k | 0 <= j < k < |Targets(b, e, end)| :: Targets(b, e, end)[j] < Targets(b, e, end)[k]
  {
    if end > 0 {
      TargetsExact(b, e, end - 1);
      var (earlier, all) := (Targets(b, e, end - 1), Targets(b, e, end));
      assert forall i: nat :: i in all <==> i in earlier || (i == end - 1 && Eligible(b, e, end - 1));
      assert forall j | 0 <= j < |earlier| :: earlier[j] in earlier;
    }
  }

  method Handle(manager: ClientManager, mask: Mask, mem: seq<byte>, size: nat, e: Surroundings)
    returns (result: Option<SendStatus>, events: seq<Event>)
    requires manager.Valid() && mask.Valid() && |mem| >= size + 6 && Fits(e)
    modifies manager.sockets, mask.entries
    ensures var b := old(Before(manager.View(), mask.entries[..], mask.node));
            var r := ReceiverOf(e, mem, size);
            && events == Events(b, e, mem, size) && result == ResultOf(b, e, r)
            && manager.View() == PoolAfter(b, e, r) && mask.entries[..] == MaskAfter(b, e, r)
  {
    events := [];
    ghost var b := Before(manager.View(), mask.entries[..], mask.node);
    var receiver := 0;
    if e.usesProtocol {
      var headerOk, top;
      receiver, headerOk, top := Scan(mem, size);
      if !headerOk {
        events := events + [Deallocated];
      }
    }
    assert receiver == ReceiverOf(e, mem, size) && Before(manager.View(), mask.entries[..], mask.node) == b;
    assert events == if e.usesProtocol && !HeaderOk(mem, size) then [Deallocated] else [];
    if receiver == BROADCAST {
      result, events := Broadcast(manager, mask, mem[..size], e, events);
    } else {
      result, events := Unicast(manager, mask, receiver, mem[..size], e, events);
    }
  }

  method Broadcast(manager: ClientManager, mask: Mask, data: seq<byte>, e: Surroundings, earlier: seq<Event>)
    returns (result: Option<SendStatus>, events: seq<Event>)
    requires manager.Valid() && mask.Valid() && Fits(e)
    modifies mask.entries
    ensures var b := old(Before(manager.View(), mask.entries[..], mask.node));
            && events == earlier + Sends(b, e, BROADCAST, data) + [Deallocated]
            && result == ResultOf(b, e, BROADCAST)
            && mask.entries[..] == MaskAfter(b, e, BROADCAST)
  {
    ghost var b := Before(manager.View(), mask.entries[..], mask.node);
    var status := e.leftover;
    events := earlier;
    for i := 0 to MAX_CLIENTS
      invariant mask.entries[..] == MaskAt(b, e, i)
      invariant events == earlier + SendsOn(Targets(b, e, i), data)
      invariant status == LastOutcome(e, Targets(b, e, i))
    {
      var socket := manager.sockets[i];
      assert b.pool[i] == socket.View();
      if socket.isOpen {
        var allowed := mask.Check(socket.serverDeviceId, e.looks[i]);
        if allowed {
          status := e.outcomes[i];
          events := events + [Sent(i, data)];
          SendsOnAppend(Targets(b, e, i), i, data);
        }
      }
      assert Eligible(b, e, i) ==> Targets(b, e, i + 1) == Targets(b, e, i) + [i];
      assert !Eligible(b, e, i) ==> Targets(b, e, i + 1) == Targets(b, e, i);
    }
    events := events + [Deallocated];
    result := Some(if status.Success? then SendOk else SendError);
  }

  method Unicast(manager: ClientManager, mask: Mask, receiver: U32, data: seq<byte>, e: Surroundings,
                 earlier: seq<Event>)
    returns (result: Option<SendStatus>, events: seq<Event>)
    requires manager.Valid() && mask.Valid() && Fits(e) && receiver != BROADCAST
    modifies manager.sockets, mask.entries
    ensures var b := old(Before(manager.View(), mask.entries[..], mask.node));
            && events == earlier + Sends(b, e, receiver, data) + (if Asserts(b, e, receiver) then [] else [Deallocated])
            && result == ResultOf(b, e, receiver)
            && manager.View() == PoolAfter(b, e, receiver) && mask.entries[..] == MaskAfter(b, e, receiver)
  {
    ghost var p := manager.View();
    events := earlier;
    var allowed := mask.Check(receiver, e.look);
    assert manager.View() == p;
    if !allowed {
      return Some(SendError), events + [Deallocated];
    }
    var connected := manager.CheckConnectedToId(receiver);
    if !connected {
      return Some(SendError), events + [Deallocated];
    }
    var found := manager.GetSocketHandlerById(receiver);
    if found == None {
      return None, events;
    }
    var k := found.value;
    var status := e.outcomes[k];
    events := events + [Sent(k, data)] + [Deallocated];
    result := Some(SendError);
    if status.Disconnected? || status.TryAgain? {
      result := Some(SendRetry);
    } else if !status.Success? {
      if e.brokenPipe {
        found := manager.GetSocketHandlerById(receiver);
        manager.sockets[found.value].Close();
        assert manager.View() == p[k := Closed(p[k])];
      }
      return Some(SendError), events;
    }
    result := Some(SendOk);
  }

  // ---- what every call guarantees ----

  function Deallocations(events: seq<Event>): nat {
    if events == [] then 0
    else Deallocations(events[..|events| - 1]) + if events[|events| - 1].Deallocated? then 1 else 0
  }

  lemma {:induction false} DeallocationsAdd(a: seq<Event>, b: seq<Event>)
    ensures Deallocations(a + b) == Deallocations(a) + Deallocations(b)
    decreases |b|
  {
    if b == [] {
      assert a + b == a;
    } else {
      var init := b[..|b| - 1];
      assert (a + b)[..|a + b| - 1] == a + init;
      DeallocationsAdd(a, init);
    }
  }

  lemma {:induction false} SendsDeallocateNothing(slots: seq<nat>, data: seq<byte>)
    ensures Deallocations(SendsOn(slots, data)) == 0
  {
    if slots != [] {
      var init := slots[..|slots| - 1];
      assert SendsOn(slots, data)[..|slots| - 1] == SendsOn(init, data);
      SendsDeallocateNothing(init, data);
    }
  }

  lemma SendsAreSends(b: Before, e: Surroundings, r: U32, data: seq<byte>)
    requires Fits(e)
    ensures forall i | 0 <= i < |Sends(b, e, r, data)| :: Sends(b, e, r, data)[i].Sent?
    ensures Deallocations(Sends(b, e, r, data)) == 0
  {
    if r == BROADCAST {
      SendsDeallocateNothing(Targets(b, e, MAX_CLIENTS), data);
    } else if Unicasts(b, e, r) {
      SendsDeallocateNothing([LookUp(b.pool, r)], data);
      assert SendsOn([LookUp(b.pool, r)], data) == Sends(b, e, r, data);
    }
  }

  /** Unless an assertion stops the call, the buffer is given back exactly once, as the last thing done with it, exactly
      when the header check passes; when it fails the buffer is given back before anything else and once more at the
      end. A call that an assertion stops sends nothing and does not give the buffer back at its end. */
  lemma BufferConserved(b: Before, e: Surroundings, mem: seq<byte>, size: nat)
    requires Fits(e) && |mem| >= size + 6
    ensures var events := Events(b, e, mem, size);
            var ok := !e.usesProtocol || HeaderOk(mem, size);
            var asserts := Asserts(b, e, ReceiverOf(e, mem, size));
            && Deallocations(events) == (if ok then 0 else 1) + (if asserts then 0 else 1)
            && (!ok ==> events[0].Deallocated?)
            && (!asserts ==> events[|events| - 1].Deallocated?
                             && (ok <==> forall i | 0 <= i < |events| - 1 :: events[i].Sent?))
            && (asserts ==> forall i | 0 <= i < |events| :: !events[i].Sent?)
  {
    var r := ReceiverOf(e, mem, size);
    var first := if e.usesProtocol && !HeaderOk(mem, size) then [Deallocated] else [];
    var sends := Sends(b, e, r, mem[..size]);
    var last := if Asserts(b, e, r) then [] else [Deallocated];
    SendsAreSends(b, e, r, mem[..size]);
    assert Deallocations([Deallocated]) == 1;
    assert Deallocations([]) == 0;
    DeallocationsAdd(first, sends);
    DeallocationsAdd(first + sends, last);
    assert Events(b, e, mem, size) == first + sends + last;
  }

  /** A broadcast sends the buffer on slot i once if the slot is eligible and not at all otherwise, in slot order. */
  lemma {:induction false} BroadcastExact(b: Before, e: Surroundings, mem: seq<byte>, size: nat)
    requires Fits(e) && |mem| >= size + 6
    requires e.usesProtocol && Receiver(mem, size) == BROADCAST
    ensures var events := Events(b, e, mem, size);
            && |events| == |Targets(b, e, MAX_CLIENTS)| + 1
            && (forall i: nat | i < |events| - 1 :: events[i] == Sent(Targets(b, e, MAX_CLIENTS)[i], mem[..size]))
            && (forall i: nat :: i in Targets(b, e, MAX_CLIENTS) <==> i < MAX_CLIENTS && Eligible(b, e, i))
            && forall j, k | 0 <= j < k < |events| - 1 ::
                 Targets(b, e, MAX_CLIENTS)[j] < Targets(b, e, MAX_CLIENTS)[k]
  {
    TargetsExact(b, e, MAX_CLIENTS);
    assert HeaderOk(mem, size);
  }

  /** A framed buffer for one node goes out once, whole, on an open socket of that node's, and nowhere else,
      exactly when the mask lets the node through and it is connected. */
  lemma UnicastExact(b: Before, e: Surroundings, pre: seq<byte>, src: U32, dst: U32, payload: seq<byte>,
                     post: seq<byte>, behind: seq<byte>)
    requires Fits(e) && e.usesProtocol && |behind| >= 6 && ClosedHaveNoId(b.pool)
    requires NoTag(pre) && NoTag(Encode(src)) && dst != BROADCAST
    ensures var buffer := pre + Frame(src, dst, payload) + post;
            var events := Events(b, e, buffer + behind, |buffer|);
            var allowed := Allows(Refreshed(b.mask, b.node, e.look), e.look.beyond, dst);
            if allowed && ConnectedToId(b.pool, dst) then
              var k := LookUp(b.pool, dst);
              if dst == 0 then events == []
              else events == [Sent(k, buffer), Deallocated] && b.pool[k].open && b.pool[k].id == dst
            else
              events == [Deallocated]
  {
    RouteFramed(pre, src, dst, payload, post, behind);
    var buffer := pre + Frame(src, dst, payload) + post;
    assert (buffer + behind)[..|buffer|] == buffer;
    if Unicasts(b, e, dst) {
      LookUpAgrees(b.pool, dst);
    }
  }

  /** Slot k is the first that carries the ID. */
  ghost predicate FirstOfId(p: Pool, id: U32, k: nat) {
    k < MAX_CLIENTS && p[k].id == id && forall i | 0 <= i < k :: p[i].id != id
  }

  /** The mask lets the receiver through, and an open socket carries its ID. */
  ghost predicate MayReach(b: Before, e: Surroundings, r: U32) {
    && Allows(Refreshed(b.mask, b.node, e.look), e.look.beyond, r)
    && exists k :: 0 <= k < MAX_CLIENTS && b.pool[k].open && b.pool[k].id == r
  }

  /** The status of a call that is no broadcast: SEND_OK exactly if the receiver may be reached, is not 0, and the send
      on its socket succeeded or met a disconnected or interrupted one; an assertion fails exactly for a receiver 0 that
      the mask lets through and an open socket carries; everything else is SEND_ERROR. */
  lemma StatusExact(b: Before, e: Surroundings, r: U32)
    requires Fits(e) && r != BROADCAST && ClosedHaveNoId(b.pool)
    ensures ResultOf(b, e, r) == None <==> r == 0 && MayReach(b, e, r)
    ensures ResultOf(b, e, r) == Some(SendOk)
            <==> && r != 0 && MayReach(b, e, r)
                 && exists k :: 0 <= k < MAX_CLIENTS && FirstOfId(b.pool, r, k) && b.pool[k].open
                                && (e.outcomes[k].Success? || e.outcomes[k].Disconnected? || e.outcomes[k].TryAgain?)
    ensures ResultOf(b, e, r) in {None, Some(SendOk), Some(SendError)}
  {
    if r != 0 && MayReach(b, e, r) {
      LookUpAgrees(b.pool, r);
      assert FirstOfId(b.pool, r, LookUp(b.pool, r));
    }
  }

  /** And so for a framed buffer for one node. */
  lemma FramedStatus(b: Before, e: Surroundings, pre: seq<byte>, src: U32, dst: U32, payload: seq<byte>,
                     post: seq<byte>, behind: seq<byte>, k: nat)
    requires Fits(e) && e.usesProtocol && |behind| >= 6 && ClosedHaveNoId(b.pool)
    requires NoTag(pre) && NoTag(Encode(src)) && dst != BROADCAST
    requires k < MAX_CLIENTS && (MayReach(b, e, dst) ==> FirstOfId(b.pool, dst, k))
    ensures var buffer := pre + Frame(src, dst, payload) + post;
            var result := ResultOf(b, e, ReceiverOf(e, buffer + behind, |buffer|));
            if !MayReach(b, e, dst) then result == Some(SendError)
            else if dst == 0 then result == None
            else result == Some(if e.outcomes[k].OtherError? then SendError else SendOk)
  {
    RouteFramed(pre, src, dst, payload, post, behind);
    StatusExact(b, e, dst);
  }

  /** The sockets after a call: they are as before, but for the one a send failed on, otherwise than by a disconnect or
      an interruption, and left EPIPE. That one is closed and loses its ID. A broadcast closes none. */
  lemma PoolExact(b: Before, e: Surroundings, r: U32, k: nat)
    requires Fits(e) && ClosedHaveNoId(b.pool) && k < MAX_CLIENTS
    ensures var slot := PoolAfter(b, e, r)[k];
            if r != BROADCAST && r != 0 && MayReach(b, e, r) && FirstOfId(b.pool, r, k)
               && e.outcomes[k].OtherError? && e.brokenPipe then
              !slot.open && slot.id == 0 && slot.host == b.pool[k].host && slot.port == b.pool[k].port
            else slot == b.pool[k]
  {
    if r != 0 && MayReach(b, e, r) {
      LookUpAgrees(b.pool, r);
    }
  }

  /** The look at slot j was the latest, of those up to slot i, that found the file with the node's row; only open slots
      are looked at. */
  ghost predicate LatestLook(b: Before, e: Surroundings, i: nat, j: nat)
    requires Fits(e)
  {
    && j <= i < MAX_CLIENTS && b.pool[j].open && e.looks[j].file.Some? && 0 <= b.node < |e.looks[j].file.value|
    && forall l | j < l <= i && b.pool[l].open :: e.looks[l].file == None
  }

  /** No look up to slot i found a file. */
  ghost predicate NoLook(b: Before, e: Surroundings, i: nat)
    requires Fits(e) && i <= MAX_CLIENTS
  {
    forall l | 0 <= l < i && b.pool[l].open :: e.looks[l].file == None
  }

  /** The mask in memory is what the latest look left. */
  lemma {:induction false} MaskLeft(b: Before, e: Surroundings, i: nat)
    requires Fits(e) && i <= MAX_CLIENTS
    ensures NoLook(b, e, i) ==> MaskAt(b, e, i) == b.mask
    ensures forall j: nat | i > 0 && LatestLook(b, e, i - 1, j) ::
              MaskAt(b, e, i) == Refreshed(b.mask, b.node, e.looks[j])
  {
    if i > 0 {
      MaskLeft(b, e, i - 1);
      forall j: nat | LatestLook(b, e, i - 1, j)
        ensures MaskAt(b, e, i) == Refreshed(b.mask, b.node, e.looks[j])
      {
        assert j < i - 1 ==> LatestLook(b, e, i - 2, j);
      }
    }
  }

  /** A framed broadcast, with a mask file: the buffer goes out on slot i exactly if the slot is open and the node's
      row, as the latest look found it, has the digit 1 in the column of the slot's ID. */
  lemma CastByRow(b: Before, e: Surroundings, pre: seq<byte>, src: U32, payload: seq<byte>, post: seq<byte>,
                  behind: seq<byte>, i: nat, j: nat)
    requires Fits(e) && e.usesProtocol && |behind| >= 6 && NoTag(pre) && NoTag(Encode(src))
    requires LatestLook(b, e, i, j) && InColumns(b.pool[i].id)
    requires b.pool[i].id - BASE_ID <= |e.looks[j].file.value[b.node]|
    ensures var buffer := pre + Frame(src, BROADCAST, payload) + post;
            var (row, column) := (e.looks[j].file.value[b.node], b.pool[i].id - BASE_ID);
            Sent(i, buffer) in Events(b, e, buffer + behind, |buffer|)
            <==> b.pool[i].open && column < |row| && row[column] == ONE
  {
    FramedCast(b, e, pre, src, payload, post, behind, i);
    if b.pool[i].open {
      MaskLeft(b, e, i + 1);
      assert MaskAt(b, e, i + 1) == Refreshed(MaskAt(b, e, i), b.node, e.looks[i]);
      ColumnsAreInside(b.pool[i].id);
      CheckReadsOwnRow(b.mask, b.node, e.looks[j], b.pool[i].id);
    }
  }

  /** And without one: the mask in memory decides. */
  lemma CastByMask(b: Before, e: Surroundings, pre: seq<byte>, src: U32, payload: seq<byte>, post: seq<byte>,
                   behind: seq<byte>, i: nat)
    requires Fits(e) && e.usesProtocol && |behind| >= 6 && NoTag(pre) && NoTag(Encode(src))
    requires i < MAX_CLIENTS && NoLook(b, e, i + 1) && InColumns(b.pool[i].id)
    ensures var buffer := pre + Frame(src, BROADCAST, payload) + post;
            Sent(i, buffer) in Events(b, e, buffer + behind, |buffer|)
            <==> b.pool[i].open && b.mask[b.pool[i].id - BASE_ID] == 1
  {
    FramedCast(b, e, pre, src, payload, post, behind, i);
    MaskLeft(b, e, i + 1);
    ColumnsAreInside(b.pool[i].id);
  }

  /** A framed broadcast puts nothing but the buffer on its slots, one after the other, and gives it back at the end. */
  lemma CastInOrder(b: Before, e: Surroundings, pre: seq<byte>, src: U32, payload: seq<byte>, post: seq<byte>,
                    behind: seq<byte>)
    requires Fits(e) && e.usesProtocol && |behind| >= 6 && NoTag(pre) && NoTag(Encode(src))
    ensures var buffer := pre + Frame(src, BROADCAST, payload) + post;
            var events := Events(b, e, buffer + behind, |buffer|);
            && |events| > 0 && events[|events| - 1] == Deallocated
            && (forall x | 0 <= x < |events| - 1 :: events[x].Sent? && events[x].data == buffer)
            && forall x, y | 0 <= x < y < |events| - 1 :: events[x].slot < events[y].slot
  {
    var buffer := pre + Frame(src, BROADCAST, payload) + post;
    RouteFramed(pre, src, BROADCAST, payload, post, behind);
    assert (buffer + behind)[..|buffer|] == buffer;
    BroadcastExact(b, e, buffer + behind, |buffer|);
  }

  /** The send on the last slot it goes out on decides its status; without one the uninitialised variable does. */
  lemma CastStatus(b: Before, e: Surroundings, pre: seq<byte>, src: U32, payload: seq<byte>, post: seq<byte>,
                   behind: seq<byte>)
    requires Fits(e) && e.usesProtocol && |behind| >= 6 && NoTag(pre) && NoTag(Encode(src))
    ensures var buffer := pre + Frame(src, BROADCAST, payload) + post;
            var events := Events(b, e, buffer + behind, |buffer|);
            var result := ResultOf(b, e, ReceiverOf(e, buffer + behind, |buffer|));
            if |events| < 2 then result == Some(if e.leftover.Success? then SendOk else SendError)
            else
              var last := events[|events| - 2];
              last.Sent? && last.slot < MAX_CLIENTS
              && result == Some(if e.outcomes[last.slot].Success? then SendOk else SendError)
  {
    var buffer := pre + Frame(src, BROADCAST, payload) + post;
    RouteFramed(pre, src, BROADCAST, payload, post, behind);
    BroadcastExact(b, e, buffer + behind, |buffer|);
    var slots := Targets(b, e, MAX_CLIENTS);
    assert slots != [] ==> slots[|slots| - 1] in slots;
  }

  lemma FramedCast(b: Before, e: Surroundings, pre: seq<byte>, src: U32, payload: seq<byte>, post: seq<byte>,
                   behind: seq<byte>, i: nat)
    requires Fits(e) && e.usesProtocol && |behind| >= 6 && NoTag(pre) && NoTag(Encode(src)) && i < MAX_CLIENTS
    ensures var buffer := pre + Frame(src, BROADCAST, payload) + post;
            Sent(i, buffer) in Events(b, e, buffer + behind, |buffer|) <==> Eligible(b, e, i)
  {
    var buffer := pre + Frame(src, BROADCAST, payload) + post;
    var events := Events(b, e, buffer + behind, |buffer|);
    RouteFramed(pre, src, BROADCAST, payload, post, behind);
    assert (buffer + behind)[..|buffer|] == buffer;
    BroadcastExact(b, e, buffer + behind, |buffer|);
    TargetsExact(b, e, MAX_CLIENTS);
    BroadcastGoesTo(Targets(b, e, MAX_CLIENTS), buffer, i);
    assert events == SendsOn(Targets(b, e, MAX_CLIENTS), buffer) + [Deallocated];
  }

  lemma BroadcastGoesTo(slots: seq<nat>, data: seq<byte>, i: nat)
    ensures Sent(i, data) in SendsOn(slots, data) + [Deallocated] <==> i in slots
  {
    var events := SendsOn(slots, data) + [Deallocated];
    if i in slots {
      var x: nat :| x < |slots| && slots[x] == i;
      assert events[x] == Sent(i, data);
    }
    if Sent(i, data) in events {
      var x: nat :| x < |events| && events[x] == Sent(i, data);
      assert slots[x] == i;
    }
  }

  /** SEND_RETRY is never returned, and SEND_OK tells a caller that has one node in mind that its data has been sent
      exactly if the socket was neither disconnected nor interrupted. */
  lemma StatusReturned(b: Before, e: Surroundings, r: U32)
    requires Fits(e)
    ensures ResultOf(b, e, r) != Some(SendRetry)
    ensures Unicasts(b, e, r) ==>
              var outcome := e.outcomes[LookUp(b.pool, r)];
              (ResultOf(b, e, r) == Some(SendOk) <==> outcome.Success?)
              <==> !outcome.Disconnected? && !outcome.TryAgain?
  {
  }

  /** A broadcast returns SEND_OK exactly if the send on the last eligible slot succeeded, whatever became of the
      others; without one it returns what the uninitialised status variable makes of it. */
  lemma BroadcastStatus(b: Before, e: Surroundings, i: nat)
    requires Fits(e)
    ensures i < MAX_CLIENTS && Eligible(b, e, i) && (forall j | i < j < MAX_CLIENTS :: !Eligible(b, e, j)) ==>
              (ResultOf(b, e, BROADCAST) == Some(SendOk) <==> e.outcomes[i].Success?)
    ensures (forall j | 0 <= j < MAX_CLIENTS :: !Eligible(b, e, j)) ==>
              (ResultOf(b, e, BROADCAST) == Some(SendOk) <==> e.leftover.Success?)
  {
    TargetsExact(b, e, MAX_CLIENTS);
    var slots := Targets(b, e, MAX_CLIENTS);
    if slots != [] {
      var last := slots[|slots| - 1];
      assert last in slots && Eligible(b, e, last);
      if i < MAX_CLIENTS && Eligible(b, e, i) && last != i {
        assert i in slots;
        var k :| 0 <= k < |slots| && slots[k] == i;
        assert i < last;
      }
    }
  }

  /** A call whose one send meets a disconnected socket, and which returns SEND_OK. */
  lemma DisconnectedReturnsOk() returns (b: Before, e: Surroundings, r: U32)
    ensures Fits(e) && Unicasts(b, e, r) && b.pool[LookUp(b.pool, r)].open && b.pool[LookUp(b.pool, r)].id == r
    ensures e.outcomes[LookUp(b.pool, r)].Disconnected? && ResultOf(b, e, r) == Some(SendOk)
  {
    r := BASE_ID + 1;
    var look := Look(None, seq(LINE_BUFFER, _ => 0), 0, _ => 0);
    var one := ClientPool.Slot(true, BASE_ID + 1, "10.0.0.3", 80);
    b := Before([one] + seq(MAX_CLIENTS - 1, _ => ClientPool.Slot(false, 0, "", 0)), seq(MAX_CLIENTS, _ => 1), 0);
    e := Surroundings(true, look, seq(MAX_CLIENTS, _ => look), seq(MAX_CLIENTS, _ => Disconnected), false, Success);
    assert b.pool[0].open && b.pool[0].id == r;
  }

  /** Without the ID protocol there is no receiver, and nothing is ever sent, whatever the lookup of ID 0 reads. */
  lemma WithoutProtocolNothingIsSent(b: Before, e: Surroundings, mem: seq<byte>, size: nat)
    requires Fits(e) && |mem| >= size + 6 && !e.usesProtocol
    ensures forall i | 0 <= i < |Events(b, e, mem, size)| :: !Events(b, e, mem, size)[i].Sent?
  {
  }

  /** No look at the mask lets ID 0 through. */
  predicate ZeroRefused(e: Surroundings) {
    e.look.beyond(Column(0)) != 1 && forall i | 0 <= i < |e.looks| :: e.looks[i].beyond(Column(0)) != 1
  }
}
