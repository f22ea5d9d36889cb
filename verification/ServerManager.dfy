/** The server sockets, their manager, and the accept task's bookkeeping, as objects updated in place. */
module ServerSockets {
  import opened SwarmTypes
  import opened Codec
  import opened ServerPool

  class ServerSocket {
    var isOpen: bool
    var clientDeviceId: U32

    function View(): Slot
      reads this
    {
      Slot(isOpen, clientDeviceId)
    }

    constructor ()
      ensures View() == CLOSED
    {
      isOpen, clientDeviceId := false, 0;
    }

    method CloseTransport()
      modifies this
      ensures View() == old(View()).(open := false)
    {
      isOpen := false;
    }

    method Close()
      modifies this
      ensures View() == CLOSED
    {
      CloseTransport();
      clientDeviceId := 0;
    }

    method Open(accepted: bool) returns (status: SocketStatus)
      modifies this
      ensures View() == old(View()).(open := accepted)
      ensures status.Success? <==> accepted
    {
      isOpen := accepted;
      if !accepted {
        CloseTransport();
        return OtherError;
      }
      status := Success;
    }

    /** Receives the client's ID into a six-byte buffer; None is a failed receive. */
    method RecvClientId(received: Option<seq<byte>>) returns (status: SocketStatus)
      requires received.Some? ==> |received.value| == 6
      modifies this
      ensures status.Success? <==> received.Some? && ParseId(received.value).Some?
      ensures View() == if status.Success? then old(View()).(id := ParseId(received.value).value)
                        else old(View()).(open := false)
    {
      if received == None {
        CloseTransport();
        return OtherError;
      }
      var data := received.value;
      if data[0] != TAG_I && data[1] != TAG_D {
        CloseTransport();
        return OtherError;
      }
      clientDeviceId := Decode(data[2..]);
      status := Success;
    }

    method SendServerId(id: U32, sent: bool) returns (status: SocketStatus, data: seq<byte>)
      modifies this
      ensures data == IdFrame(id)
      ensures status.Success? <==> sent
      ensures View() == if sent then old(View()) else old(View()).(open := false)
    {
      var frame := new byte[6];
      frame[0], frame[1] := TAG_I, TAG_D;
      frame[2], frame[3] := id / 0x100_0000, id / 0x1_0000 % 0x100;
      frame[4], frame[5] := id / 0x100 % 0x100, id % 0x100;
      data := frame[..];
      status := Success;
      if !sent {
        status := OtherError;
        CloseTransport();
      }
    }
  }

  class ServerManager {
    const sockets: seq<ServerSocket>
    var currentClientConnections: nat

    ghost predicate Valid() {
      && |sockets| == MAX_CLIENTS
      && forall i, j | 0 <= i < j < |sockets| :: sockets[i] != sockets[j]
    }

    function View(): Server
      reads this, sockets
      requires Valid()
    {
      Server(seq(MAX_CLIENTS, i reads sockets requires 0 <= i < |sockets| => sockets[i].View()),
             currentClientConnections)
    }

    constructor ()
      ensures Valid() && fresh(sockets) && View() == AllClosed()
    {
      var made: seq<ServerSocket> := [];
      while |made| < MAX_CLIENTS
        invariant |made| <= MAX_CLIENTS && fresh(made)
        invariant forall i, j | 0 <= i < j < |made| :: made[i] != made[j]
        invariant forall i | 0 <= i < |made| :: made[i].View() == CLOSED
      {
        var socket := new ServerSocket();
        made := made + [socket];
      }
      sockets := made;
      currentClientConnections := 0;
    }

    /** Accepts on the first closed socket once select reports activity. The caller's index moves to the socket
        that was tried, and stays where it was when none was. */
    method Open(activity: bool, accepted: bool, index0: int) returns (status: SocketStatus, index: int)
      requires Valid()
      modifies this, sockets
      ensures var v := old(View());
              var k := FirstClosed(v.slots, 0);
              var tries := activity && k < MAX_CLIENTS;
              && index == (if tries then k else index0)
              && (status.Success? <==> tries && accepted)
              && View() == if status.Success? then Opened(v) else v
    {
      status, index := OtherError, index0;
      if activity {
        ghost var v := View();
        var i := 0;
        while i < MAX_CLIENTS
          invariant i <= MAX_CLIENTS
          invariant View() == v && index == index0 && status == OtherError
          invariant FirstClosed(v.slots, 0) == FirstClosed(v.slots, i)
        {
          assert v.slots[i] == sockets[i].View();
          if !sockets[i].isOpen {
            index := i;
            status := sockets[i].Open(accepted);
            assert View().slots == v.slots[i := v.slots[i].(open := accepted)];
            break;
          }
          i := i + 1;
        }
        if status.Success? {
          currentClientConnections := currentClientConnections + 1;
        }
      }
    }

    method Close(index: nat)
      requires Valid() && index < MAX_CLIENTS
      modifies this`currentClientConnections, sockets[index]
      ensures View() == ClosedAt(old(View()), index)
    {
      sockets[index].Close();
      assert View().slots == old(View()).slots[index := CLOSED];
      if currentClientConnections > 0 {
        currentClientConnections := currentClientConnections - 1;
      }
    }

    method CloseAll()
      requires Valid()
      modifies this, sockets
      ensures View() == AllClosed()
    {
      for i := 0 to MAX_CLIENTS
        invariant forall k | 0 <= k < i :: sockets[k].View() == CLOSED
      {
        sockets[i].Close();
      }
      currentClientConnections := 0;
    }
  }

  /** What one iteration of the accept loop meets: select, accept, the handshake, and which readers have ended. */
  datatype Meets = Meets(
    activity: bool, accepted: bool, received: Option<seq<byte>>, sent: bool, finished: seq<bool>)

  predicate MeetsFit(m: Meets) {
    (m.received.Some? ==> |m.received.value| == 6) && |m.finished| == MAX_TASKS
  }

  /** The outcome of an accept loop iteration, for a server that uses the ID protocol or not. */
  datatype Iteration = Iteration(server: Server, tasks: Tasks, reader: Option<nat>)

  predicate GuardPasses(v: Server, t: Tasks) {
    t.taskCount != MAX_TASKS && v.count < MAX_CLIENTS
  }

  function Accepted(v: Server, t: Tasks, protocol: bool, m: Meets): Iteration
    requires TasksFit(t) && MeetsFit(m)
  {
    var k := FirstClosed(v.slots, 0);
    if !GuardPasses(v, t) then Iteration(v, Reaped(t, m.finished, MAX_TASKS), None)
    else if !m.activity || k == MAX_CLIENTS || !m.accepted then Iteration(v, t, None)
    else
      var joined := Opened(v);
      if !protocol then Handed(joined, t, k)
      else if m.received == None || ParseId(m.received.value) == None then Iteration(ClosedAt(joined, k), t, None)
      else
        var known := joined.(slots := joined.slots[k := Slot(true, ParseId(m.received.value).value)]);
        if m.sent then Handed(known, t, k) else Iteration(Severed(known, k), t, None)
  }

  /** The hand-over of slot k to the first unstarted pool entry; with none, the slot stays open and unread. */
  function Handed(v: Server, t: Tasks, k: nat): Iteration
    requires TasksFit(t)
  {
    if FirstUnstarted(t.started, 0) < MAX_TASKS then Iteration(v, Started(t), Some(k)) else Iteration(v, t, None)
  }

  class AcceptTask {
    const manager: ServerManager
    const protocol: bool
    const taskPool: array<bool>
    var taskCount: int
    var joinStatus: int

    ghost predicate Valid() {
      manager.Valid() && taskPool.Length == MAX_TASKS
    }

    function View(): Tasks
      reads this, taskPool
    {
      Tasks(taskPool[..], taskCount, joinStatus)
    }

    constructor (protocol: bool)
      ensures Valid() && fresh(taskPool) && fresh(manager) && fresh(manager.sockets)
      ensures this.protocol == protocol && manager.View() == AllClosed()
      ensures View() == Tasks(seq(MAX_TASKS, _ => false), 0, 0)
    {
      manager := new ServerManager();
      this.protocol := protocol;
      taskPool := new bool[MAX_TASKS](_ => false);
      taskCount, joinStatus := 0, 0;
    }

    /** One iteration of the accept loop; `reader` is the slot a reader was started on. */
    method RunIteration(m: Meets, deviceId: U32) returns (reader: Option<nat>)
      requires Valid() && MeetsFit(m)
      modifies this, taskPool, manager, manager.sockets
      ensures Iteration(manager.View(), View(), reader)
              == Accepted(old(manager.View()), old(View()), protocol, m)
    {
      reader := None;
      if taskCount != MAX_TASKS && manager.currentClientConnections < MAX_CLIENTS {
        ghost var t := View();
        var status, index := manager.Open(m.activity, m.accepted, -1);
        if !status.Success? {
          index := -1;
        } else if protocol {
          status := Handshake(index, m, deviceId);
        }
        assert View() == t;
        if status.Success? {
          reader := StartReader(index);
        }
      } else {
        ReapPass(m.finished);
      }
    }

    method Handshake(index: nat, m: Meets, deviceId: U32) returns (status: SocketStatus)
      requires Valid() && MeetsFit(m) && index < MAX_CLIENTS
      modifies manager, manager.sockets
      ensures var v := old(manager.View());
              var parsed := if m.received == None then None else ParseId(m.received.value);
              && (status.Success? <==> parsed.Some? && m.sent)
              && manager.View() == (
                 if parsed == None then ClosedAt(v, index)
                 else
                   var known := v.(slots := v.slots[index := v.slots[index].(id := parsed.value)]);
                   if m.sent then known else Severed(known, index))
    {
      ghost var v := manager.View();
      var socket := manager.sockets[index];
      status := socket.RecvClientId(m.received);
      if !status.Success? {
        manager.Close(index);
        assert manager.View().slots == v.slots[index := CLOSED];
      } else {
        var data;
        status, data := socket.SendServerId(deviceId, m.sent);
        assert manager.View().slots == v.slots[index := manager.View().slots[index]];
      }
    }

    method StartReader(index: nat) returns (reader: Option<nat>)
      requires Valid()
      modifies this, taskPool
      ensures Iteration(manager.View(), View(), reader) == Handed(manager.View(), old(View()), index)
    {
      reader := None;
      ghost var t := View();
      var i := 0;
      while i < MAX_TASKS
        invariant i <= MAX_TASKS && View() == t && reader == None
        invariant FirstUnstarted(t.started, 0) == FirstUnstarted(t.started, i)
      {
        if !taskPool[i] {
          taskCount := taskCount + 1;
          taskPool[i] := true;
          assert View().started == t.started[i := true];
          return Some(index);
        }
        i := i + 1;
      }
    }

    /** What the accept task does once it has seen the stop flag. */
    method ShutDown(finished: seq<bool>)
      requires Valid() && |finished| == MAX_TASKS
      modifies this, taskPool, manager, manager.sockets
      ensures View() == Reaped(old(View()), finished, MAX_TASKS) && manager.View() == AllClosed()
    {
      ReapPass(finished);
      manager.CloseAll();
    }

    /** The reap loop, run when the guard fails and once more at shutdown. */
    method ReapPass(finished: seq<bool>)
      requires Valid() && |finished| == MAX_TASKS
      modifies this, taskPool
      ensures View() == Reaped(old(View()), finished, MAX_TASKS)
    {
      ghost var t := View();
      for i := 0 to MAX_TASKS
        invariant View() == Reaped(t, finished, i)
      {
        ghost var r := View();
        if taskPool[i] {
          joinStatus := if finished[i] then 0 else BUSY;
        }
        if joinStatus == 0 {
          if taskCount > 0 {
            taskCount := taskCount - 1;
          }
          taskPool[i] := false;
          assert View().started == r.started[i := false];
        }
        assert View() == ReapedAt(r, i, finished[i]);
      }
    }
  }

  // ---- what an iteration comes to ----

  /** The client's first message was received, with one of the tag bytes right at least. */
  predicate Identifies(m: Meets)
    requires MeetsFit(m)
  {
    m.received.Some? && (m.received.value[0] == TAG_I || m.received.value[1] == TAG_D)
  }

  /** Slot k is the first one closed. */
  ghost predicate IsFirstClosed(slots: Slots, k: nat) {
    k < MAX_CLIENTS && !slots[k].open && forall i | 0 <= i < k :: slots[i].open
  }

  /** Whether somebody is accepted. */
  predicate Takes(v: Server, t: Tasks, m: Meets) {
    t.taskCount != MAX_TASKS && v.count < MAX_CLIENTS && m.activity && m.accepted
  }

  /** A client who is accepted is counted, and stays counted unless its ID does not come in: not being able to answer
      it closes the transport only, and leaves the ID and the count behind. */
  lemma AcceptCounts(v: Server, t: Tasks, protocol: bool, m: Meets, k: nat)
    requires TasksFit(t) && MeetsFit(m) && Takes(v, t, m) && IsFirstClosed(v.slots, k)
    ensures var after := Accepted(v, t, protocol, m).server;
            && (forall i | 0 <= i < MAX_CLIENTS && i != k :: after.slots[i] == v.slots[i])
            && after.count == v.count + (if protocol && !Identifies(m) then 0 else 1)
            && (after.slots[k].open <==> !protocol || (Identifies(m) && m.sent))
            && (if !protocol then after.slots[k].id == v.slots[k].id
                else if Identifies(m) then Encode(after.slots[k].id) == m.received.value[2..6]
                else after.slots[k].id == 0)
  {
    if protocol && Identifies(m) {
      EncodeDecode(m.received.value[2..]);
    }
  }

  /** Exactly the clients that are left with an open slot get a reader, on the first entry that is not started and as
      long as there is one. */
  lemma AcceptStartsReader(v: Server, t: Tasks, protocol: bool, m: Meets, k: nat, j: nat)
    requires TasksFit(t) && MeetsFit(m) && Takes(v, t, m) && IsFirstClosed(v.slots, k)
    requires j <= MAX_TASKS && (j < MAX_TASKS ==> !t.started[j]) && forall i | 0 <= i < j :: t.started[i]
    ensures var after := Accepted(v, t, protocol, m);
            if (!protocol || (Identifies(m) && m.sent)) && j < MAX_TASKS then
              && after.reader == Some(k) && after.tasks.started == t.started[j := true]
              && after.tasks.taskCount == t.taskCount + 1 && after.tasks.joinStatus == t.joinStatus
            else after.reader == None && after.tasks == t
  {
  }

  /** An iteration that accepts nobody leaves the sockets alone, and the pool too, unless the guard sent it reaping. */
  lemma NobodyAccepted(v: Server, t: Tasks, protocol: bool, m: Meets)
    requires TasksFit(t) && MeetsFit(m)
    requires !Takes(v, t, m) || forall i | 0 <= i < MAX_CLIENTS :: v.slots[i].open
    ensures var after := Accepted(v, t, protocol, m);
            && after.server == v && after.reader == None
            && (t.taskCount != MAX_TASKS && v.count < MAX_CLIENTS ==> after.tasks == t)
            && (t.taskCount == MAX_TASKS || v.count >= MAX_CLIENTS ==>
                  && |after.tasks.started| == MAX_TASKS
                  && forall j | 0 <= j < MAX_TASKS :: after.tasks.started[j] == (t.started[j] && !m.finished[j]))
  {
    ReapExact(t, m.finished, MAX_TASKS);
  }
}
