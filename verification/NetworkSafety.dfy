/** Every step of the network keeps its invariant. */
module NetworkSafety {
  import opened SwarmTypes
  import opened Codec
  import opened RoutingScan
  import opened ClientPool
  import opened Hosts
  import opened Network
  import opened Transitions
  import Runs = ClientRuns
  import Srv = ServerRuns

  /** A node's client sockets after one of its steps keep what each node knows by itself. */
  lemma NodeStep(g: Config, s: Net, n: nat, step: Runs.Action)
    requires ConfigOk(g) && ClientInv(g, s) && NodeCan(g, s, n, step)
    ensures var t := NodeDid(g, s, n, step);
            forall m | 0 <= m < |t.nodes| :: Runs.Inv(t.nodes[m])
  {
    Runs.StepKeepsInv(g.files[n], s.nodes[n], step);
  }

  /** The connections agree on everything the client side looks at. */
  ghost predicate SameForClient(a: Conn, b: Conn) {
    && a.client == b.client && a.slot == b.slot && a.server == b.server
    && a.up == b.up && a.back == b.back && a.tags == b.tags
  }

  /** A slot that is no more open than before, on a connection that looks the same, is still in order. */
  lemma SlotStays(g: Config, s: Net, t: Net, n: nat, k: nat)
    requires n < |s.nodes| == |t.nodes| && k < MAX_CLIENTS && SlotInv(g, s, n, k)
    requires StaysOpen(s.nodes[n], t.nodes[n], k)
    requires LinkOf(s, n, k).Some? ==>
               LinkOf(t, n, k) == LinkOf(s, n, k)
               && SameForClient(s.conns[LinkOf(s, n, k).value], t.conns[LinkOf(s, n, k).value])
    ensures SlotInv(g, t, n, k)
  {
  }

  /** If slot k is open it was open before, at the same endpoint, with the same ID and in the same handshake. */
  ghost predicate StaysOpen(a: Runs.State, b: Runs.State, k: nat)
    requires k < MAX_CLIENTS
  {
    b.pool[k].open ==>
      && a.pool[k].open && b.pool[k].id == a.pool[k].id
      && b.pool[k].host == a.pool[k].host && b.pool[k].port == a.pool[k].port
      && (b.opening == Runs.SendingId(k) <==> a.opening == Runs.SendingId(k))
      && (b.opening == Runs.ReceivingId(k) <==> a.opening == Runs.ReceivingId(k))
  }

  /** What a local step can change: it opens nothing, identifies nothing and starts or ends no handshake that stands. */
  lemma LocalStepIsQuiet(g: Config, s: Net, n: nat, step: Runs.Action, k: nat)
    requires NodeCan(g, s, n, step) && IsLocal(step) && k < MAX_CLIENTS && Runs.Inv(s.nodes[n])
    ensures StaysOpen(s.nodes[n], NodeDid(g, s, n, step).nodes[n], k)
  {
  }

  lemma LocalSlots(g: Config, s: Net, n: nat, step: Runs.Action)
    requires ConfigOk(g) && ClientInv(g, s) && IsLocal(step) && NodeCan(g, s, n, step)
    ensures Slots(g, NodeDid(g, s, n, step))
  {
    var t := NodeDid(g, s, n, step);
    forall m, k | 0 <= m < |t.nodes| && 0 <= k < MAX_CLIENTS
      ensures SlotInv(g, t, m, k)
    {
      if m == n {
        assert Runs.Inv(s.nodes[n]);
        LocalStepIsQuiet(g, s, n, step, k);
      }
      SlotStays(g, s, t, m, k);
    }
  }

  /** Passing over a slot gives up only the claim about that slot. */
  lemma OnNoStreamLater(s: Net, n: nat, from: nat)
    requires n < |s.serial| && OnNoStream(s, n, from)
    ensures OnNoStream(s, n, from + 1)
  {
  }

  /** The order a sender has in hand is where it was, and on no stream it was not on. */
  lemma SenderGoesOn(g: Config, s: Net, t: Net, n: nat)
    requires n < |s.nodes| == |t.nodes| && n < |s.serial| && n < |g.ids| && SenderInv(g, s, n)
    requires t == s.(nodes := t.nodes)
    requires Follows(s.nodes[n].sending, t.nodes[n].sending)
    ensures SenderInv(g, t, n)
  {
    forall from: nat | OnNoStream(s, n, from)
      ensures OnNoStream(t, n, from)
    {
    }
    if t.nodes[n].sending.CastLooking? && t.nodes[n].sending.i > 0 {
      OnNoStreamLater(s, n, t.nodes[n].sending.i - 1);
    }
  }

  /** Where a sender can get by itself: on with the same message, past a slot, or to its end. */
  predicate Follows(a: Runs.SendPc, b: Runs.SendPc) {
    match b
    case NoSend => true
    case Breaking(_) => true
    case Routing(_, _) => a == b
    case LookingUp(msg, r) => a == Runs.Routing(msg, r) && r != BROADCAST
    case Transmitting(msg, r) => a == Runs.LookingUp(msg, r)
    case CastLooking(msg, i) =>
      (i == 0 && a == Runs.Routing(msg, BROADCAST))
      || (i > 0 && (a == Runs.CastLooking(msg, i - 1) || a == Runs.CastAsking(msg, i - 1)))
    case CastAsking(msg, i) => a == Runs.CastLooking(msg, i)
    case CastTransmitting(msg, i) => a == Runs.CastAsking(msg, i)
  }

  lemma LocalStepFollows(g: Config, s: Net, n: nat, step: Runs.Action)
    requires IsLocal(step) && NodeCan(g, s, n, step) && !Runs.OfOpenTask(step)
    ensures Follows(s.nodes[n].sending, NodeDid(g, s, n, step).nodes[n].sending)
  {
  }

  lemma LocalSender(g: Config, s: Net, n: nat, step: Runs.Action)
    requires ConfigOk(g) && ClientInv(g, s) && IsLocal(step) && NodeCan(g, s, n, step) && !Runs.OfOpenTask(step)
    ensures SenderInv(g, NodeDid(g, s, n, step), n)
  {
    assert SenderInv(g, s, n);
    LocalStepFollows(g, s, n, step);
    SenderGoesOn(g, s, NodeDid(g, s, n, step), n);
  }

  /** A sender whose node took no step, while no stream of its node got anything, is still in order. */
  lemma SenderStays(g: Config, s: Net, t: Net, n: nat)
    requires Sized(g, s) && Sized(g, t) && n < |s.nodes| && SenderInv(g, s, n)
    requires t.nodes[n].sending == s.nodes[n].sending && t.serial[n] == s.serial[n] && s.orders <= t.orders
    requires |t.conns| >= |s.conns|
    requires forall c | 0 <= c < |s.conns| ::
               t.conns[c].client == s.conns[c].client && t.conns[c].slot == s.conns[c].slot
    requires forall c | 0 <= c < |s.conns| && s.conns[c].client == n :: t.conns[c].tags == s.conns[c].tags
    requires forall c | |s.conns| <= c < |t.conns| :: t.conns[c].tags == []
    ensures SenderInv(g, t, n)
  {
    forall from: nat | OnNoStream(s, n, from)
      ensures OnNoStream(t, n, from)
    {
    }
  }

  /** Senders are in order after a step that puts no data on any stream and moves no sender. */
  lemma SendersStay(g: Config, s: Net, t: Net)
    requires Sized(g, s) && Sized(g, t) && Senders(g, s)
    requires forall n | 0 <= n < |s.nodes| :: t.nodes[n].sending == s.nodes[n].sending
    requires t.serial == s.serial && s.orders <= t.orders && |t.conns| >= |s.conns|
    requires forall c | 0 <= c < |s.conns| ::
               t.conns[c].client == s.conns[c].client && t.conns[c].slot == s.conns[c].slot
               && t.conns[c].tags == s.conns[c].tags
    requires forall c | |s.conns| <= c < |t.conns| :: t.conns[c].tags == []
    ensures Senders(g, t)
  {
    forall n | 0 <= n < |t.nodes|
      ensures SenderInv(g, t, n)
    {
      SenderStays(g, s, t, n);
    }
  }

  /** A handshake step of node n on slot k0 touches neither the other slots nor their connections. */
  lemma OtherSlotsStay(g: Config, s: Net, t: Net, n: nat, k0: nat, c0: nat)
    requires Sized(g, s) && Sized(g, t) && Slots(g, s) && n < |s.nodes| && k0 < MAX_CLIENTS
    requires |t.conns| == |s.conns| && t.links == s.links && c0 < |s.conns|
    requires s.conns[c0].client == n && s.conns[c0].slot == k0
    requires s.nodes[n].opening == Runs.SendingId(k0) || s.nodes[n].opening == Runs.ReceivingId(k0)
    requires forall c | 0 <= c < |s.conns| && c != c0 :: t.conns[c] == s.conns[c]
    requires forall i | 0 <= i < |s.nodes| && i != n :: t.nodes[i] == s.nodes[i]
    requires forall k | 0 <= k < MAX_CLIENTS && k != k0 ::
               t.nodes[n].pool[k] == s.nodes[n].pool[k]
               && t.nodes[n].opening != Runs.SendingId(k) && t.nodes[n].opening != Runs.ReceivingId(k)
    requires SlotInv(g, t, n, k0)
    ensures Slots(g, t)
  {
    forall i, k | 0 <= i < |t.nodes| && 0 <= k < MAX_CLIENTS
      ensures SlotInv(g, t, i, k)
    {
      assert SlotInv(g, s, i, k);
      if (i != n || k != k0) && s.nodes[i].pool[k].open {
        assert LinkOf(s, i, k).value != c0;
      }
    }
  }

  /** A handshake step on slot k0 of node n keeps the invariant if it does so for that slot and its connection. */
  lemma HandshakeConcludes(g: Config, s: Net, t: Net, n: nat, k0: nat, c0: nat)
    requires |g.files| == |g.ids| && ClientInv(g, s) && n < |s.nodes| == |t.nodes| && k0 < MAX_CLIENTS
    requires t == s.(nodes := t.nodes, conns := t.conns) && |t.conns| == |s.conns|
    requires c0 < |s.conns| && s.conns[c0].client == n && s.conns[c0].slot == k0
    requires s.nodes[n].opening == Runs.SendingId(k0) || s.nodes[n].opening == Runs.ReceivingId(k0)
    requires forall c | 0 <= c < |s.conns| && c != c0 :: t.conns[c] == s.conns[c]
    requires t.conns[c0].client == n && t.conns[c0].slot == k0 && t.conns[c0].tags == s.conns[c0].tags
    requires forall i | 0 <= i < |s.nodes| && i != n :: t.nodes[i] == s.nodes[i]
    requires t.nodes[n].sending == s.nodes[n].sending
    requires forall k | 0 <= k < MAX_CLIENTS && k != k0 ::
               t.nodes[n].pool[k] == s.nodes[n].pool[k]
               && t.nodes[n].opening != Runs.SendingId(k) && t.nodes[n].opening != Runs.ReceivingId(k)
    requires Nodes(t) && ConnInv(g, t.orders, t.conns[c0]) && SlotInv(g, t, n, k0)
    ensures ClientInv(g, t)
  {
    OtherSlotsStay(g, s, t, n, k0, c0);
    SendersStay(g, s, t);
    assert UnicastOnce(t) by {
      assert forall c | 0 <= c < |s.conns| :: t.conns[c].tags == s.conns[c].tags;
    }
  }

  lemma LocalKeepsInv(g: Config, s: Net, n: nat, step: Runs.Action)
    requires ConfigOk(g) && ClientInv(g, s) && IsLocal(step) && NodeCan(g, s, n, step)
    ensures ClientInv(g, NodeDid(g, s, n, step))
  {
    var t := NodeDid(g, s, n, step);
    NodeStep(g, s, n, step);
    LocalSlots(g, s, n, step);
    forall m | 0 <= m < |t.nodes|
      ensures SenderInv(g, t, m)
    {
      if m == n && !Runs.OfOpenTask(step) {
        LocalSender(g, s, n, step);
      } else {
        SenderStays(g, s, t, m);
      }
    }
  }

  lemma ConnectKeepsInv(g: Config, s: Net, n: nat)
    requires ConfigOk(g) && ClientInv(g, s) && CanConnect(g, s, n)
    ensures ClientInv(g, Connected(g, s, n))
  {
    var t := Connected(g, s, n);
    NodeStep(g, s, n, Runs.Connect(true));
    var k0 := s.nodes[n].opening.k;
    assert Runs.Inv(s.nodes[n]) && s.nodes[n].pool[k0].id == 0;
    forall i, k | 0 <= i < |t.nodes| && 0 <= k < MAX_CLIENTS
      ensures SlotInv(g, t, i, k)
    {
      if i != n || k != k0 {
        SlotStays(g, s, t, i, k);
      }
    }
    assert ConnInv(g, t.orders, t.conns[|s.conns|]);
    SendersStay(g, s, t);
  }

  /** A connection on which nothing has happened takes the client's ID frame. */
  lemma IdAppended(g: Config, orders: seq<Order>, conn: Conn)
    requires ConnInv(g, orders, conn) && conn.up == []
    ensures ConnInv(g, orders, conn.(up := [IdFrame(g.ids[conn.client])]))
  {
    assert conn.taken == 0 && conn.recorded == None;
  }

  /** The slot of a handshake is on a connection whose client stream is empty. */
  lemma SendIdKeepsInv(g: Config, s: Net, n: nat, sent: bool, arrives: bool)
    requires ConfigOk(g) && ClientInv(g, s) && (sent ==> arrives) && NodeCan(g, s, n, Runs.SendId(sent))
    ensures ClientInv(g, IdSent(g, s, n, sent, arrives))
  {
    var t := IdSent(g, s, n, sent, arrives);
    NodeStep(g, s, n, Runs.SendId(sent));
    var k0 := s.nodes[n].opening.k;
    assert SlotInv(g, s, n, k0) && Runs.Inv(s.nodes[n]);
    var c0 := LinkOf(s, n, k0).value;
    assert ConnInv(g, s.orders, s.conns[c0]);
    IdAppended(g, s.orders, s.conns[c0]);
    assert arrives ==> t.conns[c0] == s.conns[c0].(up := [IdFrame(g.ids[n])]);
    HandshakeConcludes(g, s, t, n, k0, c0);
  }

  /** A connection from which the client took the server's ID frame. */
  lemma ServerIdTaken(g: Config, orders: seq<Order>, conn: Conn)
    requires ConnInv(g, orders, conn) && conn.back < |conn.down|
    ensures ConnInv(g, orders, conn.(back := conn.back + 1)) && conn.back == 0
    ensures conn.down[conn.back] == IdFrame(g.ids[conn.server])
  {
    assert conn.back == 0 && conn.tags == [];
  }

  /** What the client's receive of the ID touches. */
  lemma RecvIdTouches(g: Config, s: Net, n: nat, junk: seq<byte>, k0: nat, c0: nat)
    requires |junk| == 24 && NodeCan(g, s, n, Runs.RecvId(None)) && NextDown(s, n).Some?
    requires k0 == s.nodes[n].opening.k && LinkOf(s, n, k0) == Some(c0)
    ensures var t := IdReceived(g, s, n, junk);
            && t == s.(nodes := t.nodes, conns := t.conns) && |t.nodes| == |s.nodes|
            && t.conns == s.conns[c0 := s.conns[c0].(back := s.conns[c0].back + 1)]
            && (forall i | 0 <= i < |s.nodes| && i != n :: t.nodes[i] == s.nodes[i])
            && t.nodes[n].sending == s.nodes[n].sending
            && !t.nodes[n].opening.SendingId? && !t.nodes[n].opening.ReceivingId?
            && forall k | 0 <= k < MAX_CLIENTS && k != k0 :: t.nodes[n].pool[k] == s.nodes[n].pool[k]
  {
  }

  /** Receiving the server's ID identifies the slot with the node at the other end. */
  lemma RecvIdKeepsInv(g: Config, s: Net, n: nat, junk: seq<byte>)
    requires ConfigOk(g) && ClientInv(g, s)
    requires |junk| == 24 && NodeCan(g, s, n, Runs.RecvId(None)) && NextDown(s, n).Some?
    ensures ClientInv(g, IdReceived(g, s, n, junk))
  {
    var t := IdReceived(g, s, n, junk);
    var k0 := s.nodes[n].opening.k;
    assert SlotInv(g, s, n, k0) && Runs.Inv(s.nodes[n]);
    var c0 := LinkOf(s, n, k0).value;
    var conn := s.conns[c0];
    assert ConnInv(g, s.orders, conn);
    ServerIdTaken(g, s.orders, conn);
    RecvIdTouches(g, s, n, junk, k0, c0);
    RecvIdNodes(g, s, n, junk);
    RecvIdSlot(g, s, n, junk, k0, c0);
    HandshakeConcludes(g, s, t, n, k0, c0);
  }

  lemma RecvIdNodes(g: Config, s: Net, n: nat, junk: seq<byte>)
    requires ConfigOk(g) && ClientInv(g, s)
    requires |junk| == 24 && NodeCan(g, s, n, Runs.RecvId(None)) && NextDown(s, n).Some?
    ensures Nodes(IdReceived(g, s, n, junk))
  {
    NodeStep(g, s, n, Runs.RecvId(Some(ReceivedInto(junk, NextDown(s, n).value))));
  }

  lemma RecvIdSlot(g: Config, s: Net, n: nat, junk: seq<byte>, k0: nat, c0: nat)
    requires ConfigOk(g) && Sized(g, s)
    requires |junk| == 24 && NodeCan(g, s, n, Runs.RecvId(None)) && NextDown(s, n).Some?
    requires k0 == s.nodes[n].opening.k && LinkOf(s, n, k0) == Some(c0) && SlotInv(g, s, n, k0)
    requires s.nodes[n].pool[k0].open && s.conns[c0].back == 0
    requires NextDown(s, n) == Some(IdFrame(g.ids[s.conns[c0].server]))
    ensures SlotInv(g, IdReceived(g, s, n, junk), n, k0)
  {
    HandshakeRoundTrip(g.ids[s.conns[c0].server], junk);
  }

  /** More orders do not disturb a connection. */
  lemma ConnStays(g: Config, orders: seq<Order>, more: seq<Order>, conn: Conn)
    requires ConnInv(g, orders, conn) && orders <= more
    ensures ConnInv(g, more, conn)
  {
    forall i | 0 <= i < |conn.tags|
      ensures DataOk(g, more, conn, i)
    {
      assert DataOk(g, orders, conn, i);
    }
  }

  lemma HandleKeepsInv(g: Config, s: Net, n: nat, dest: U32, payload: seq<byte>, pre: seq<byte>, post: seq<byte>,
                       behind: seq<byte>)
    requires ConfigOk(g) && ClientInv(g, s) && |behind| >= 6 && NodeCan(g, s, n, Runs.Begin([], 0))
    requires |pre| == g.preSize && |post| == g.postSize && NoTag(pre)
    ensures ClientInv(g, Handled(g, s, n, dest, payload, pre, post, behind))
  {
    var t := Handled(g, s, n, dest, payload, pre, post, behind);
    var msg := Wrapped(pre, g.ids[n], dest, payload, post);
    NodeStep(g, s, n, Runs.Begin(msg, Receiver(msg + behind, |msg|)));
    forall c | 0 <= c < |t.conns|
      ensures ConnInv(g, t.orders, t.conns[c])
    {
      ConnStays(g, s.orders, t.orders, s.conns[c]);
    }
    forall i, k | 0 <= i < |t.nodes| && 0 <= k < MAX_CLIENTS
      ensures SlotInv(g, t, i, k)
    {
      SlotStays(g, s, t, i, k);
    }
    HandleSenders(g, s, n, dest, payload, pre, post, behind);
    TagsAreOrders(g, s);
    assert UnicastOnce(t);
  }

  /** The order just taken is addressed to the receiver the scan finds. */
  lemma HandleSenders(g: Config, s: Net, n: nat, dest: U32, payload: seq<byte>, pre: seq<byte>, post: seq<byte>,
                      behind: seq<byte>)
    requires ConfigOk(g) && ClientInv(g, s) && |behind| >= 6 && NodeCan(g, s, n, Runs.Begin([], 0))
    requires |pre| == g.preSize && |post| == g.postSize && NoTag(pre)
    ensures Senders(g, Handled(g, s, n, dest, payload, pre, post, behind))
  {
    var t := Handled(g, s, n, dest, payload, pre, post, behind);
    RouteFramed(pre, g.ids[n], dest, payload, post, behind);
    WrappedCarries(g, pre, g.ids[n], Order(n, dest, payload), post);
    TagsAreOrders(g, s);
    forall i | 0 <= i < |t.nodes|
      ensures SenderInv(g, t, i)
    {
      if i == n {
        assert OnNoStream(t, n, 0);
      } else {
        SenderStays(g, s, t, i);
      }
    }
  }

  lemma TagsAreOrders(g: Config, s: Net)
    requires |g.files| == |g.ids| && ClientInv(g, s)
    ensures forall c | 0 <= c < |s.conns| :: TagsBelow(s.conns[c], |s.orders|)
  {
    forall c, i | 0 <= c < |s.conns| && 0 <= i < |s.conns[c].tags|
      ensures s.conns[c].tags[i] < |s.orders|
    {
      assert ConnInv(g, s.orders, s.conns[c]);
      assert DataOk(g, s.orders, s.conns[c], i);
    }
  }

  /** A connection that gets a data message its stream may carry. */
  lemma DataAppended(g: Config, orders: seq<Order>, conn: Conn, msg: seq<byte>, tag: nat)
    requires ConnInv(g, orders, conn) && conn.back == 1 && TagsBelow(conn, tag) && tag < |orders|
    requires orders[tag].node == conn.client
    requires orders[tag].dest == g.ids[conn.server] || orders[tag].dest == BROADCAST
    requires Carries(g, msg, g.ids[conn.client], orders[tag])
    ensures ConnInv(g, orders, conn.(up := conn.up + [msg], tags := conn.tags + [tag]))
  {
    var conn' := conn.(up := conn.up + [msg], tags := conn.tags + [tag]);
    forall i | 0 <= i < |conn'.tags|
      ensures DataOk(g, orders, conn', i)
    {
      if i < |conn.tags| {
        assert DataOk(g, orders, conn, i);
      }
    }
    assert conn'.up[..conn.taken] == conn.up[..conn.taken];
    assert conn.taken >= 1 ==> conn'.up[1..conn.taken] == conn.up[1..conn.taken];
  }

  /** Where a data message goes: the sender's current order, put on an identified slot it may go to. */
  ghost predicate MayPut(g: Config, s: Net, n: nat, k: nat, msg: seq<byte>, from: nat)
    requires |g.files| == |g.ids| && ClientInv(g, s)
  {
    && n < |s.nodes| && k < MAX_CLIENTS && from <= k
    && s.nodes[n].pool[k].open && s.nodes[n].pool[k].id != 0
    && s.serial[n] < |s.orders|
    && Current(g, s, n, msg, s.orders[s.serial[n]].dest) && OnNoStream(s, n, from)
    && (s.orders[s.serial[n]].dest == s.nodes[n].pool[k].id || s.orders[s.serial[n]].dest == BROADCAST)
  }

  lemma PutKeepsConns(g: Config, s: Net, n: nat, k: nat, msg: seq<byte>, from: nat)
    requires |g.files| == |g.ids| && ClientInv(g, s) && MayPut(g, s, n, k, msg, from)
    ensures Conns(g, s.(conns := Put(s, n, k, msg, Some(s.serial[n]), true)))
  {
    assert SlotInv(g, s, n, k);
    var c := LinkOf(s, n, k).value;
    assert ConnInv(g, s.orders, s.conns[c]);
    DataAppended(g, s.orders, s.conns[c], msg, s.serial[n]);
  }

  lemma PutKeepsSlots(g: Config, s: Net, n: nat, k: nat, msg: seq<byte>, from: nat)
    requires |g.files| == |g.ids| && ClientInv(g, s) && MayPut(g, s, n, k, msg, from)
    ensures Slots(g, s.(conns := Put(s, n, k, msg, Some(s.serial[n]), true)))
  {
    var t := s.(conns := Put(s, n, k, msg, Some(s.serial[n]), true));
    assert SlotInv(g, s, n, k);
    assert Runs.Inv(s.nodes[n]);
    var c := LinkOf(s, n, k).value;
    forall i, j | 0 <= i < |t.nodes| && 0 <= j < MAX_CLIENTS
      ensures SlotInv(g, t, i, j)
    {
      assert SlotInv(g, s, i, j);
      if s.nodes[i].pool[j].open && (i != n || j != k) {
        assert LinkOf(s, i, j).value != c;
      }
    }
  }

  /** An order put on one more stream was on another only if it is a broadcast. */
  lemma OnceMore(s: Net, t: Net, c0: nat, tag: nat)
    requires UnicastOnce(s) && t.orders == s.orders && tag < |s.orders| && c0 < |s.conns| == |t.conns|
    requires forall c | 0 <= c < |s.conns| && c != c0 :: t.conns[c].tags == s.conns[c].tags
    requires t.conns[c0].tags == s.conns[c0].tags + [tag]
    requires forall c, i | 0 <= c < |s.conns| && 0 <= i < |s.conns[c].tags| && s.conns[c].tags[i] == tag ::
               s.orders[tag].dest == BROADCAST
    ensures UnicastOnce(t)
  {
    forall c, d, i, j | 0 <= c < d < |t.conns| && 0 <= i < |t.conns[c].tags| && 0 <= j < |t.conns[d].tags|
                        && t.conns[c].tags[i] == t.conns[d].tags[j] && t.conns[c].tags[i] < |t.orders|
      ensures t.orders[t.conns[c].tags[i]].dest == BROADCAST
    {
      if c == c0 && i == |s.conns[c].tags| {
        assert s.conns[d].tags[j] == tag;
      } else if d == c0 && j == |s.conns[d].tags| {
        assert s.conns[c].tags[i] == tag;
      } else {
        assert t.conns[c].tags[i] == s.conns[c].tags[i] && t.conns[d].tags[j] == s.conns[d].tags[j];
      }
    }
  }

  lemma PutKeepsUnicastOnce(g: Config, s: Net, n: nat, k: nat, msg: seq<byte>, from: nat)
    requires |g.files| == |g.ids| && ClientInv(g, s) && MayPut(g, s, n, k, msg, from)
    requires s.orders[s.serial[n]].dest == BROADCAST || from == 0
    ensures UnicastOnce(s.(conns := Put(s, n, k, msg, Some(s.serial[n]), true)))
  {
    assert SlotInv(g, s, n, k);
    forall c, i | 0 <= c < |s.conns| && 0 <= i < |s.conns[c].tags| && s.conns[c].tags[i] == s.serial[n]
      ensures s.orders[s.serial[n]].dest == BROADCAST
    {
      assert ConnInv(g, s.orders, s.conns[c]) && DataOk(g, s.orders, s.conns[c], i);
    }
    OnceMore(s, s.(conns := Put(s, n, k, msg, Some(s.serial[n]), true)), LinkOf(s, n, k).value, s.serial[n]);
  }

  lemma PutKeeps(g: Config, s: Net, n: nat, k: nat, msg: seq<byte>, from: nat, arrives: bool)
    requires |g.files| == |g.ids| && ClientInv(g, s) && MayPut(g, s, n, k, msg, from)
    requires s.orders[s.serial[n]].dest == BROADCAST || from == 0
    ensures var u := s.(conns := Put(s, n, k, msg, Some(s.serial[n]), arrives));
            Conns(g, u) && Slots(g, u) && UnicastOnce(u)
  {
    if arrives {
      PutKeepsConns(g, s, n, k, msg, from);
      PutKeepsSlots(g, s, n, k, msg, from);
      PutKeepsUnicastOnce(g, s, n, k, msg, from);
    } else {
      assert s.(conns := s.conns) == s;
    }
  }

  lemma TransmitKeepsInv(g: Config, s: Net, n: nat, status: SocketStatus, brokenPipe: bool, arrives: bool)
    requires ConfigOk(g) && ClientInv(g, s) && NodeCan(g, s, n, Runs.Transmit(status, brokenPipe))
    ensures ClientInv(g, Transmitted(g, s, n, status, brokenPipe, arrives))
  {
    var t := Transmitted(g, s, n, status, brokenPipe, arrives);
    var node := s.nodes[n];
    var k := LookUp(node.pool, node.sending.receiver);
    NodeStep(g, s, n, Runs.Transmit(status, brokenPipe));
    assert Runs.Inv(node) && SenderInv(g, s, n);
    LookUpAgrees(node.pool, node.sending.receiver);
    PutKeeps(g, s, n, k, node.sending.msg, 0, arrives);
    AfterPut(g, s, s.(conns := t.conns), t, n, k, node.sending.msg, arrives);
  }

  lemma CastKeepsInv(g: Config, s: Net, n: nat, arrives: bool)
    requires ConfigOk(g) && ClientInv(g, s) && NodeCan(g, s, n, Runs.CastTransmit)
    ensures ClientInv(g, CastOut(g, s, n, arrives))
  {
    var t := CastOut(g, s, n, arrives);
    var node := s.nodes[n];
    var i := node.sending.i;
    NodeStep(g, s, n, Runs.CastTransmit);
    assert Runs.Inv(node) && SenderInv(g, s, n);
    PutKeeps(g, s, n, i, node.sending.msg, i, arrives);
    CastSender(g, s, n, arrives);
    AfterPut(g, s, s.(conns := t.conns), t, n, i, node.sending.msg, arrives);
  }

  /** After the put on slot k, later slots still have nothing of the latest order. */
  lemma PutOnNoStream(g: Config, s: Net, n: nat, k: nat, msg: seq<byte>, arrives: bool)
    requires n < |s.serial| && OnNoStream(s, n, k)
    requires LinkOf(s, n, k).Some? && s.conns[LinkOf(s, n, k).value].slot == k
    ensures OnNoStream(s.(conns := Put(s, n, k, msg, Some(s.serial[n]), arrives)), n, k + 1)
  {
    OnNoStreamLater(s, n, k);
  }

  lemma CastSender(g: Config, s: Net, n: nat, arrives: bool)
    requires ConfigOk(g) && ClientInv(g, s) && NodeCan(g, s, n, Runs.CastTransmit)
    ensures SenderInv(g, CastOut(g, s, n, arrives), n)
  {
    var t := CastOut(g, s, n, arrives);
    var (i, msg) := (s.nodes[n].sending.i, s.nodes[n].sending.msg);
    assert Runs.Inv(s.nodes[n]) && SenderInv(g, s, n) && SlotInv(g, s, n, i);
    PutOnNoStream(g, s, n, i, msg, arrives);
    assert Current(g, t, n, msg, BROADCAST);
    assert t.nodes[n].sending == Runs.CastLooking(msg, i + 1);
  }

  /** What the other senders know survives a put by node n. */
  lemma OtherSendersStay(g: Config, s: Net, t: Net, n: nat, k: nat, msg: seq<byte>, arrives: bool)
    requires Sized(g, s) && Sized(g, t) && Senders(g, s) && n < |s.nodes|
    requires LinkOf(s, n, k).Some? && s.conns[LinkOf(s, n, k).value].client == n
    requires t.conns == Put(s, n, k, msg, Some(s.serial[n]), arrives)
    requires t.serial == s.serial && t.orders == s.orders
    requires forall m | 0 <= m < |s.nodes| && m != n :: t.nodes[m] == s.nodes[m]
    ensures forall m | 0 <= m < |s.nodes| && m != n :: SenderInv(g, t, m)
  {
    forall m | 0 <= m < |t.nodes| && m != n
      ensures SenderInv(g, t, m)
    {
      SenderStays(g, s, t, m);
    }
  }

  /** The node that put a message has changed nothing but its sender's place. */
  lemma AfterPut(g: Config, s: Net, u: Net, t: Net, n: nat, k: nat, msg: seq<byte>, arrives: bool)
    requires ConfigOk(g) && ClientInv(g, s) && Sized(g, t) && n < |s.nodes| && k < MAX_CLIENTS
    requires u == s.(conns := t.conns) && t == u.(nodes := t.nodes)
    requires Conns(g, u) && Slots(g, u) && UnicastOnce(u) && Nodes(t)
    requires forall m | 0 <= m < |s.nodes| && m != n :: t.nodes[m] == s.nodes[m]
    requires t.nodes[n] == s.nodes[n].(sending := t.nodes[n].sending)
    requires s.nodes[n].pool[k].open
    requires t.conns == Put(s, n, k, msg, Some(s.serial[n]), arrives)
    requires SenderInv(g, t, n)
    ensures ClientInv(g, t)
  {
    assert SlotInv(g, s, n, k);
    OtherSendersStay(g, s, t, n, k, msg, arrives);
    assert Senders(g, t);
    forall i, j | 0 <= i < |t.nodes| && 0 <= j < MAX_CLIENTS
      ensures SlotInv(g, t, i, j)
    {
      assert SlotInv(g, u, i, j);
    }
  }

  // ---- the servers ----

  /** Servers do not notice what the client sides do. */
  lemma HostsStay(g: Config, s: Net, t: Net)
    requires HostsInv(s) && t.hosts == s.hosts && |s.conns| <= |t.conns|
    requires forall c | 0 <= c < |s.conns| :: SameForServer(s.conns[c], t.conns[c])
    requires forall c | |s.conns| <= c < |t.conns| :: !t.conns[c].accepted
    ensures HostsInv(t)
  {
    forall m | 0 <= m < |t.hosts|
      ensures HostOk(m, t.hosts[m], t.conns)
    {
      HostStays(m, s.hosts[m], s.conns, t.conns);
    }
  }

  /** Nor do the other servers notice what server m does with one of its connections. */
  lemma OtherHostsStay(s: Net, m: nat, h: Host, conns: seq<Conn>, c: nat)
    requires HostsInv(s) && m < |s.hosts| && HostOk(m, h, conns) && |conns| == |s.conns|
    requires c < |conns| ==> conns == s.conns[c := conns[c]] && conns[c].server == s.conns[c].server == m
    requires c >= |conns| ==> conns == s.conns
    ensures HostsInv(HostDid(s, m, h, conns))
  {
    var t := HostDid(s, m, h, conns);
    forall i | 0 <= i < |t.hosts|
      ensures HostOk(i, t.hosts[i], t.conns)
    {
      if i != m {
        HostStays(i, s.hosts[i], s.conns, t.conns);
      }
    }
  }

  /** A server moves without the client sides noticing. */
  lemma ServerMoves(g: Config, s: Net, t: Net)
    requires |g.files| == |g.ids| && ClientInv(g, s) && t == s.(hosts := t.hosts, conns := t.conns)
    requires |t.hosts| == |s.hosts| && |t.conns| == |s.conns|
    requires forall c | 0 <= c < |s.conns| :: SameForClient(s.conns[c], t.conns[c])
    requires Conns(g, t)
    ensures ClientInv(g, t)
  {
    forall i, k | 0 <= i < |t.nodes| && 0 <= k < MAX_CLIENTS
      ensures SlotInv(g, t, i, k)
    {
      SlotStays(g, s, t, i, k);
    }
    SendersStay(g, s, t);
    assert UnicastOnce(t) by {
      assert forall d | 0 <= d < |s.conns| :: t.conns[d].tags == s.conns[d].tags;
    }
  }

  /** A server moves, and on connection c with it. */
  lemma ServerMovesOn(g: Config, s: Net, m: nat, h: Host, c: nat, conn: Conn)
    requires |g.files| == |g.ids| && Inv(g, s) && m < |s.hosts| && c < |s.conns|
    requires s.conns[c].server == m && SameForClient(s.conns[c], conn) && ConnInv(g, s.orders, conn)
    requires HostOk(m, h, s.conns[c := conn])
    ensures Inv(g, HostDid(s, m, h, s.conns[c := conn]))
  {
    OtherHostsStay(s, m, h, s.conns[c := conn], c);
    ServerMoves(g, s, HostDid(s, m, h, s.conns[c := conn]));
  }

  lemma ServerMovesAlone(g: Config, s: Net, m: nat, h: Host)
    requires |g.files| == |g.ids| && Inv(g, s) && m < |s.hosts| && HostOk(m, h, s.conns)
    ensures Inv(g, HostDid(s, m, h, s.conns))
  {
    OtherHostsStay(s, m, h, s.conns, |s.conns|);
    ServerMoves(g, s, HostDid(s, m, h, s.conns));
  }

  /** A server moves by itself. */
  lemma ServeKeepsInv(g: Config, s: Net, m: nat, own: Srv.Action)
    requires |g.files| == |g.ids| && Inv(g, s) && m < |s.hosts|
    requires OfItsOwn(s.hosts[m], own) && Srv.CanDo(s.hosts[m].srv, own)
    ensures Inv(g, Served(s, m, own))
  {
    var h := s.hosts[m].(srv := Srv.Do(s.hosts[m].srv, own));
    assert HostOk(m, s.hosts[m], s.conns);
    OwnStep(m, s.hosts[m], s.conns, own);
    ServerMovesAlone(g, s, m, h);
  }

  /** Fields the server's end is free to move leave the data on the connection in order. */
  lemma DataStays(g: Config, orders: seq<Order>, a: Conn, b: Conn)
    requires ConnInv(g, orders, a) && SameForClient(a, b)
    ensures forall i | 0 <= i < |b.tags| :: DataOk(g, orders, b, i)
  {
    forall i | 0 <= i < |b.tags|
      ensures DataOk(g, orders, b, i)
    {
      assert DataOk(g, orders, a, i);
    }
  }

  lemma AcceptKeepsInv(g: Config, s: Net, m: nat)
    requires |g.files| == |g.ids| && Inv(g, s) && CanDo(g, s, AcceptOn(m))
    ensures Inv(g, HasAccepted(s, m))
  {
    var c := NextWaiting(s.conns, m, 0);
    assert HostOk(m, s.hosts[m], s.conns) && ConnInv(g, s.orders, s.conns[c]);
    AcceptStep(m, s.hosts[m], s.conns);
    DataStays(g, s.orders, s.conns[c], s.conns[c].(accepted := true));
    ServerMovesOn(g, s, m, AcceptedBy(s.hosts[m], c), c, s.conns[c].(accepted := true));
  }

  /** The connection a server slot is on is one of that server's. */
  lemma SeatIsJoined(g: Config, s: Net, m: nat, k: nat)
    requires |g.files| == |g.ids| && Inv(g, s) && m < |s.hosts| && SeatOf(s.hosts[m], k).Some?
    ensures var c := SeatOf(s.hosts[m], k).value;
            c < |s.conns| && s.conns[c].server == m && s.conns[c].accepted && ConnInv(g, s.orders, s.conns[c])
  {
    assert HostOk(m, s.hosts[m], s.conns);
  }

  /** The handshake receive meets the client's ID frame and nothing else. */
  lemma IdTakenKeepsConn(g: Config, orders: seq<Order>, conn: Conn, junk: seq<byte>)
    requires ConnInv(g, orders, conn) && |junk| == 6 && conn.taken < |conn.up|
    requires conn.accepted && conn.recorded == None && conn.down == []
    ensures ConnInv(g, orders, IdTaken(conn, junk)) && conn.taken == 0
    ensures IdTaken(conn, junk).recorded == Some(g.ids[conn.client]) && !IdTaken(conn, junk).torn
  {
    assert conn.tags == [];
    assert conn.taken == 0 && conn.up[0] == IdFrame(g.ids[conn.client]);
    HandshakeRoundTrip(g.ids[conn.client], junk);
  }

  /** While the accept task is about to receive the client's ID, its connection is unidentified and unanswered. */
  lemma HandAwaitsId(g: Config, s: Net, m: nat, c: nat)
    requires |g.files| == |g.ids| && Inv(g, s) && m < |s.hosts| && s.hosts[m].srv.accept.Joined?
    requires SeatOf(s.hosts[m], s.hosts[m].srv.accept.k) == Some(c)
    ensures c < |s.conns| && s.conns[c].server == m && s.conns[c].accepted && ConnInv(g, s.orders, s.conns[c])
    ensures s.conns[c].recorded == None && s.conns[c].down == [] && HostOk(m, s.hosts[m], s.conns)
  {
    SeatIsJoined(g, s, m, s.hosts[m].srv.accept.k);
    assert HostOk(m, s.hosts[m], s.conns);
    HandIsSeat(m, s.hosts[m], s.conns);
  }

  lemma TakeIdKeepsInv(g: Config, s: Net, m: nat, junk: seq<byte>)
    requires |g.files| == |g.ids| && Inv(g, s) && CanDo(g, s, TakeIdOn(m, junk))
    ensures Inv(g, HasTakenId(s, m, junk))
  {
    var h := s.hosts[m];
    var c := SeatOf(h, h.srv.accept.k).value;
    HandAwaitsId(g, s, m, c);
    IdTakenKeepsConn(g, s.orders, s.conns[c], junk);
    TakeIdStep(m, h, s.conns, c, junk);
    ServerMovesOn(g, s, m, TookId(h, s.conns[c], junk), c, IdTaken(s.conns[c], junk));
  }

  lemma AnswerKeepsConn(g: Config, orders: seq<Order>, conn: Conn)
    requires ConnInv(g, orders, conn) && conn.accepted && conn.recorded.Some? && conn.down == []
    ensures ConnInv(g, orders, conn.(down := conn.down + [IdFrame(g.ids[conn.server])]))
  {
    DataStays(g, orders, conn, conn.(down := conn.down + [IdFrame(g.ids[conn.server])]));
  }

  /** While the accept task is about to answer, its connection is identified and unanswered. */
  lemma HandAwaitsAnswer(g: Config, s: Net, m: nat, c: nat)
    requires |g.files| == |g.ids| && Inv(g, s) && m < |s.hosts| && s.hosts[m].srv.accept.Identified?
    requires SeatOf(s.hosts[m], s.hosts[m].srv.accept.k) == Some(c)
    ensures c < |s.conns| && s.conns[c].server == m && s.conns[c].accepted && ConnInv(g, s.orders, s.conns[c])
    ensures s.conns[c].recorded.Some? && s.conns[c].down == []
  {
    SeatIsJoined(g, s, m, s.hosts[m].srv.accept.k);
    assert HostOk(m, s.hosts[m], s.conns);
    HandIsSeat(m, s.hosts[m], s.conns);
  }

  lemma AnswerKeepsInv(g: Config, s: Net, m: nat, sent: bool, arrives: bool)
    requires |g.files| == |g.ids| && Inv(g, s) && CanDo(g, s, AnswerOn(m, sent, arrives))
    ensures Inv(g, AnswerSent(g, s, m, sent, arrives))
  {
    var h := s.hosts[m];
    var seat := SeatOf(h, h.srv.accept.k);
    assert HostOk(m, h, s.conns);
    AnswerStep(m, h, s.conns, g.ids[m], sent, arrives);
    if arrives {
      HandAwaitsAnswer(g, s, m, seat.value);
      AnswerKeepsConn(g, s.orders, s.conns[seat.value]);
      ServerMovesOn(g, s, m, HasAnswered(h, sent), seat.value, Answered(s.conns, seat, g.ids[m], true)[seat.value]);
    } else {
      ServerMovesAlone(g, s, m, HasAnswered(h, sent));
    }
  }

  lemma TakenKeepsConn(g: Config, orders: seq<Order>, conn: Conn, own: bool)
    requires ConnInv(g, orders, conn) && conn.accepted && conn.taken < |conn.up|
    ensures ConnInv(g, orders, Taken(conn, own))
  {
    DataStays(g, orders, conn, Taken(conn, own));
  }

  /** What the reader's receive does to the connection. */
  lemma TakeIsInOrder(g: Config, s: Net, m: nat, j: nat, c: nat)
    requires m < |s.hosts| && CanTake(s.hosts[m], s.conns, j) && |g.files| == |g.ids| && Inv(g, s)
    requires SeatOf(s.hosts[m], s.hosts[m].srv.threads[j].k) == Some(c)
    ensures c < |s.conns| && s.conns[c].server == m && HostOk(m, s.hosts[m], s.conns)
    ensures ConnInv(g, s.orders, s.conns[c])
    ensures ConnInv(g, s.orders, Taken(s.conns[c], IsOwn(s.hosts[m], j, c)))
  {
    SeatIsJoined(g, s, m, s.hosts[m].srv.threads[j].k);
    TakenKeepsConn(g, s.orders, s.conns[c], IsOwn(s.hosts[m], j, c));
  }

  /** And to the host. */
  lemma TakeKeepsHost(g: Config, orders: seq<Order>, m: nat, h: Host, conns: seq<Conn>, j: nat, c: nat)
    requires HostOk(m, h, conns) && CanTake(h, conns, j) && SeatOf(h, h.srv.threads[j].k) == Some(c)
    requires ConnInv(g, orders, conns[c])
    ensures HostOk(m, Took(h, j, Message(c, conns[c].taken)), conns[c := Taken(conns[c], IsOwn(h, j, c))])
  {
    TakeStep(m, h, conns, j, c);
  }

  lemma TakeKeepsInv(g: Config, s: Net, m: nat, j: nat)
    requires |g.files| == |g.ids| && Inv(g, s) && CanDo(g, s, TakeOn(m, j))
    ensures Inv(g, HasTaken(s, m, j))
  {
    var h := s.hosts[m];
    var c := SeatOf(h, h.srv.threads[j].k).value;
    TakeIsInOrder(g, s, m, j, c);
    TakeKeepsHost(g, s.orders, m, h, s.conns, j, c);
    ServerMovesOn(g, s, m, Took(h, j, Message(c, s.conns[c].taken)), c, Taken(s.conns[c], IsOwn(h, j, c)));
  }

  /** A message that its reader held is handed up for the first time, in its turn unless the connection is shared. */
  lemma HandedUpKeepsConn(g: Config, orders: seq<Order>, conn: Conn, i: nat)
    requires ConnInv(g, orders, conn) && conn.accepted && i < conn.taken && i !in conn.handed
    requires conn.recorded.Some? ==> i >= 1
    requires !conn.shared ==> i == |conn.handed| + 1
    ensures ConnInv(g, orders, HandedUp(conn, i))
  {
    DataStays(g, orders, conn, HandedUp(conn, i));
    assert forall a | 0 <= a < |conn.handed| :: conn.handed[a] in conn.handed;
  }

  lemma HandOverKeepsInv(g: Config, s: Net, m: nat, j: nat)
    requires |g.files| == |g.ids| && Inv(g, s) && CanDo(g, s, HandOverOn(m, j))
    ensures Inv(g, HasHandedOver(s, m, j))
  {
    var h := s.hosts[m];
    var (c, i) := (h.held[j].c, h.held[j].i);
    assert HostOk(m, h, s.conns) && ConnInv(g, s.orders, s.conns[c]);
    assert HeldOk(m, h, s.conns, j) && ReaderOk(h, s.conns, j);
    HandOverStep(m, h, s.conns, j);
    HandedUpKeepsConn(g, s.orders, s.conns[c], i);
    ServerMovesOn(g, s, m, HandedOver(h, j), c, HandedUp(s.conns[c], i));
  }

  // ---- every step ----

  predicate OfServer(a: Action) {
    a.Serve? || a.AcceptOn? || a.TakeIdOn? || a.AnswerOn? || a.TakeOn? || a.HandOverOn?
  }

  lemma ServerStepKeepsInv(g: Config, s: Net, a: Action)
    requires ConfigOk(g) && Inv(g, s) && CanDo(g, s, a) && OfServer(a)
    ensures Inv(g, Do(g, s, a))
  {
    match a
    case Serve(m, own) => ServeKeepsInv(g, s, m, own);
    case AcceptOn(m) => AcceptKeepsInv(g, s, m);
    case TakeIdOn(m, junk) => TakeIdKeepsInv(g, s, m, junk);
    case AnswerOn(m, sent, arrives) => AnswerKeepsInv(g, s, m, sent, arrives);
    case TakeOn(m, j) => TakeKeepsInv(g, s, m, j);
    case HandOverOn(m, j) => HandOverKeepsInv(g, s, m, j);
  }

  lemma ClientStepKeepsInv(g: Config, s: Net, a: Action)
    requires ConfigOk(g) && ClientInv(g, s) && CanDo(g, s, a) && !OfServer(a)
    ensures ClientInv(g, Do(g, s, a))
  {
    match a
    case Local(n, step) => LocalKeepsInv(g, s, n, step);
    case ConnectTo(n) => ConnectKeepsInv(g, s, n);
    case SendIdOn(n, sent, arrives) => SendIdKeepsInv(g, s, n, sent, arrives);
    case RecvIdOn(n, junk) => RecvIdKeepsInv(g, s, n, junk);
    case Handle(n, dest, payload, pre, post, behind) => HandleKeepsInv(g, s, n, dest, payload, pre, post, behind);
    case TransmitOn(n, status, brokenPipe, arrives) => TransmitKeepsInv(g, s, n, status, brokenPipe, arrives);
    case CastOn(n, _, arrives) => CastKeepsInv(g, s, n, arrives);
  }

  /** What a client side's step changes of the connections: what clients put on them and took from them, and one new
      connection at most. */
  lemma ClientStepIsAside(g: Config, s: Net, a: Action)
    requires CanDo(g, s, a) && !OfServer(a)
    ensures var t := Do(g, s, a);
            && t.hosts == s.hosts && |s.conns| <= |t.conns|
            && (forall c | 0 <= c < |s.conns| :: SameForServer(s.conns[c], t.conns[c]))
            && (forall c | |s.conns| <= c < |t.conns| :: !t.conns[c].accepted)
  {
  }

  lemma StepKeepsInv(g: Config, s: Net, a: Action)
    requires ConfigOk(g) && Inv(g, s) && CanDo(g, s, a)
    ensures Inv(g, Do(g, s, a))
  {
    if OfServer(a) {
      ServerStepKeepsInv(g, s, a);
    } else {
      ClientStepKeepsInv(g, s, a);
      ClientStepIsAside(g, s, a);
      HostsStay(g, s, Do(g, s, a));
    }
  }

  lemma InitInv(g: Config)
    requires ConfigOk(g)
    ensures Inv(g, Init(g))
  {
    Srv.InitInv(true);
  }

  lemma ReachableInv(g: Config, s: Net)
    requires ConfigOk(g) && Reachable(g, s)
    ensures Inv(g, s)
  {
    InitInv(g);
    var inv := (x: Net) => Inv(g, x);
    forall x: Net, a | inv(x) && Step(g)(x, a).Some?
      ensures inv(Step(g)(x, a).value)
    {
      StepKeepsInv(g, x, a);
    }
    InvariantHolds(Step(g), inv, Init(g), s);
  }
}
