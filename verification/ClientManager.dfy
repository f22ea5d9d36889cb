/** The client socket and the manager of ten of them, as objects updated in place. */
module ClientSockets {
  import opened SwarmTypes
  import opened Codec
  import opened ClientPool

  /** The transport below (connect, send, receive) is represented by the outcome each call is given. */
  class ClientSocket {
    var isOpen: bool
    var serverDeviceId: U32
    var hostname: string
    var port: U16

    function View(): Slot
      reads this
    {
      Slot(isOpen, serverDeviceId, hostname, port)
    }

    constructor ()
      ensures View() == Slot(false, 0, "", 0)
    {
      isOpen, serverDeviceId, hostname, port := false, 0, "", 0;
    }

    method SetHost(host: array<char>, port: U16)
      modifies this
      ensures View() == old(View()).(host := CString(host[..]), port := port)
    {
      var length := 0;
      while length < host.Length && host[length] != NUL
        invariant length <= host.Length
        invariant NUL !in host[..length]
      {
        length := length + 1;
      }
      assert host[..][..length] == host[..length];
      CStringEnds(host[..], length);
      hostname, this.port := host[..length], port;
    }

    method Open(accepted: bool) returns (status: SocketStatus)
      modifies this
      ensures View() == old(View()).(open := accepted)
      ensures status.Success? <==> accepted
    {
      isOpen := accepted;
      status := if accepted then Success else OtherError;
    }

    /** Closes the transport only; the ID stays. */
    method CloseTransport()
      modifies this
      ensures View() == old(View()).(open := false)
    {
      isOpen := false;
    }

    method Close()
      modifies this
      ensures View() == Closed(old(View()))
    {
      CloseTransport();
      serverDeviceId := 0;
    }

    /** Sends the ID frame; a failed send closes the transport. */
    method SendClientId(id: U32, sent: bool) returns (status: SocketStatus, data: seq<byte>)
      modifies this
      ensures data == IdFrame(id)
      ensures status.Success? <==> sent
      ensures View() == if sent then old(View()) else old(View()).(open := false)
    {
      var frame := new byte[6];
      frame[0], frame[1] := TAG_I, TAG_D;
      frame[2], frame[3] := id / 0x100_0000, id / 0x1_0000 % 0x100;
      frame[4], frame[5] := id / 0x100 % 0x100, id % 0x100;
      data := frame[..];
      status := Success;
      if !sent {
        status := OtherError;
        CloseTransport();
      }
    }

    /** Receives the server's ID into a 24-byte buffer; `received` is the buffer, or None for a failed receive. */
    method RecvServerId(received: Option<seq<byte>>) returns (status: SocketStatus)
      requires received.Some? ==> |received.value| == 24
      modifies this
      ensures status.Success? <==> received.Some? && ParseId(received.value).Some?
      ensures View() == if status.Success? then old(View()).(id := ParseId(received.value).value)
                        else old(View()).(open := false)
    {
      if received == None {
        CloseTransport();
        return OtherError;
      }
      var data := received.value;
      if data[0] != TAG_I && data[1] != TAG_D {
        CloseTransport();
        return OtherError;
      }
      serverDeviceId := Decode(data[2..]);
      status := Success;
    }

    method CompareHost(host: array<char>, port: U16) returns (same: bool)
      requires host.Length >= COMPARED
      ensures same == HostMatches(View(), host[..], port)
    {
      same := true;
      var i := 0;
      while i < COMPARED
        invariant i <= COMPARED
        invariant same && forall j | 0 <= j < i :: host[j] == CharAt(hostname, j)
      {
        if host[i] != CharAt(hostname, i) {
          same := false;
          break;
        }
        i := i + 1;
      }
      if port != this.port && same {
        same := false;
      }
      assert i < COMPARED ==> host[..][i] != CharAt(hostname, i);
    }
  }

  class ClientManager {
    const sockets: seq<ClientSocket>

    ghost predicate Valid() {
      && |sockets| == MAX_CLIENTS
      && forall i, j | 0 <= i < j < |sockets| :: sockets[i] != sockets[j]
    }

    function View(): (p: Pool)
      reads sockets
      requires Valid()
    {
      seq(MAX_CLIENTS, i reads sockets requires 0 <= i < |sockets| => sockets[i].View())
    }

    constructor ()
      ensures Valid() && fresh(sockets)
      ensures View() == seq(MAX_CLIENTS, _ => Slot(false, 0, "", 0))
    {
      var made: seq<ClientSocket> := [];
      while |made| < MAX_CLIENTS
        invariant |made| <= MAX_CLIENTS && fresh(made)
        invariant forall i, j | 0 <= i < j < |made| :: made[i] != made[j]
        invariant forall i | 0 <= i < |made| :: made[i].View() == Slot(false, 0, "", 0)
      {
        var socket := new ClientSocket();
        made := made + [socket];
      }
      sockets := made;
    }

    method Close(index: nat)
      requires Valid() && index < MAX_CLIENTS
      modifies sockets[index]
      ensures View() == old(View())[index := Closed(old(View())[index])]
    {
      sockets[index].Close();
    }

    method CloseAll()
      requires Valid()
      modifies sockets
      ensures forall k | 0 <= k < MAX_CLIENTS :: View()[k] == Closed(old(View())[k])
    {
      for i := 0 to MAX_CLIENTS
        invariant forall k | 0 <= k < MAX_CLIENTS ::
            sockets[k].View() == if k < i then Closed(old(View())[k]) else old(View())[k]
      {
        sockets[i].Close();
      }
    }

    method GetFreeSocketIndex() returns (index: int)
      requires Valid()
      ensures index == if FirstClosed(View(), 0) < MAX_CLIENTS then FirstClosed(View(), 0) else -1
    {
      index := -1;
      ghost var p := View();
      for i := 0 to MAX_CLIENTS
        invariant index == -1
        invariant FirstClosed(p, 0) == FirstClosed(p, i)
      {
        if !sockets[i].isOpen {
          assert !p[i].open;
          return i;
        }
        assert p[i].open;
      }
    }

    /** None is a failed assertion: there is no lookup of ID 0. */
    method GetSocketHandlerById(id: U32) returns (index: Option<nat>)
      requires Valid()
      ensures index == if id == 0 then None else Some(LookUp(View(), id))
    {
      if id == 0 {
        return None;
      }
      ghost var p := View();
      for i := 0 to MAX_CLIENTS
        invariant FirstWithId(p, id, 0) == FirstWithId(p, id, i)
      {
        assert p[i] == sockets[i].View();
        if sockets[i].serverDeviceId == id {
          return Some(i);
        }
      }
      index := Some(0);
    }

    method CheckConnectedToId(id: U32) returns (connected: bool)
      requires Valid()
      ensures connected == ConnectedToId(View(), id)
    {
      ghost var p := View();
      for i := 0 to MAX_CLIENTS
        invariant forall k | 0 <= k < i :: !(p[k].open && p[k].id == id)
      {
        assert p[i] == sockets[i].View();
        if sockets[i].isOpen && sockets[i].serverDeviceId == id {
          return true;
        }
      }
      connected := false;
    }

    method CheckConnectedToHost(host: array<char>, port: U16) returns (connected: bool)
      requires Valid() && host.Length >= COMPARED
      ensures connected == ConnectedToHost(View(), host[..], port)
    {
      ghost var p := View();
      connected := false;
      for i := 0 to MAX_CLIENTS
        invariant !connected
        invariant forall k | 0 <= k < i :: !(p[k].open && HostMatches(p[k], host[..], port))
      {
        assert p[i] == sockets[i].View();
        var same := sockets[i].CompareHost(host, port);
        if sockets[i].isOpen && same {
          return true;
        }
      }
    }
  }
}
