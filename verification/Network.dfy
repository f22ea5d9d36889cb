/** Nodes that run a connection task, a sender and a server each, joined by first-in-first-out connections. */
module Network {
  import opened SwarmTypes
  import opened Codec
  import opened RoutingScan
  import opened HostFile
  import opened ClientPool
  import opened Hosts
  import opened Transitions
  import Runs = ClientRuns
  import Srv = ServerRuns

  /** The network: each node's device ID and host file, the node that listens at an endpoint, and the sizes of what the
      layers below the swarm framer put before and behind a frame. */
  datatype Config = Config(
    ids: seq<U32>, files: seq<seq<Line>>, listens: map<(string, U16), nat>, preSize: nat, postSize: nat)

  ghost predicate ConfigOk(g: Config) {
    && |g.files| == |g.ids|
    && (forall n | 0 <= n < |g.ids| :: g.ids[n] != 0 && NoTag(Encode(g.ids[n])))
    && (forall at | at in g.listens :: g.listens[at] < |g.ids|)
  }

  /** A payload handed to a node's framer for a destination. */
  datatype Order = Order(node: nat, dest: U32, payload: seq<byte>)

  /** `hosts` are the nodes' servers, `serial` each node's latest order, `links` the connection a client slot is on. */
  datatype Net = Net(
    nodes: seq<Runs.State>, hosts: seq<Host>, links: map<(nat, nat), nat>, conns: seq<Conn>, orders: seq<Order>,
    serial: seq<nat>)

  /** Steps of node n's client side, then steps of node m's server. `arrives` says whether bytes of a failed send got
      onto the stream all the same; `junk` is what a receive buffer held. */
  datatype Action =
    | Local(n: nat, step: Runs.Action)
    | ConnectTo(n: nat)
    | SendIdOn(n: nat, sent: bool, arrives: bool)
    | RecvIdOn(n: nat, junk: seq<byte>)
    | Handle(n: nat, dest: U32, payload: seq<byte>, pre: seq<byte>, post: seq<byte>, behind: seq<byte>)
    | TransmitOn(n: nat, status: SocketStatus, brokenPipe: bool, arrives: bool)
    | CastOn(n: nat, sent: bool, arrives: bool)
    | Serve(m: nat, own: Srv.Action)
    | AcceptOn(m: nat)
    | TakeIdOn(m: nat, junk: seq<byte>)
    | AnswerOn(m: nat, sent: bool, arrives: bool)
    | TakeOn(m: nat, j: nat)
    | HandOverOn(m: nat, j: nat)

  ghost function Init(g: Config): Net {
    Net(seq(|g.ids|, _ => Runs.Init()), seq(|g.ids|, _ => Host(Srv.Init(true), [], map[])), map[], [], [],
        seq(|g.ids|, _ => 0))
  }

  /** Client steps that touch no stream. */
  predicate IsLocal(a: Runs.Action) {
    match a
    case Connect(accepted) => !accepted
    case RecvId(reply) => reply == None
    case SendId(_) => false
    case Begin(_, _) => false
    case Transmit(_, _) => false
    case CastTransmit => false
    case _ => true
  }

  /** The connection a client slot is on. */
  function LinkOf(s: Net, n: nat, k: nat): Option<nat> {
    if (n, k) in s.links && s.links[(n, k)] < |s.conns| then Some(s.links[(n, k)]) else None
  }

  /** The node that listens where a client slot points. */
  function ListenerOf(g: Config, slot: Slot): Option<nat> {
    if (slot.host, slot.port) in g.listens then Some(g.listens[(slot.host, slot.port)]) else None
  }

  function NextDown(s: Net, n: nat): Option<seq<byte>>
    requires n < |s.nodes| && s.nodes[n].opening.ReceivingId?
  {
    match LinkOf(s, n, s.nodes[n].opening.k)
    case None => None
    case Some(c) => if s.conns[c].back < |s.conns[c].down| then Some(s.conns[c].down[s.conns[c].back]) else None
  }

  predicate NodeCan(g: Config, s: Net, n: nat, step: Runs.Action) {
    n < |s.nodes| && n < |g.files| && n < |g.ids| && n < |s.serial| && Runs.CanDo(g.files[n], s.nodes[n], step)
  }

  /** Node n's connection task is about to connect to an endpoint where somebody listens. */
  predicate CanConnect(g: Config, s: Net, n: nat) {
    NodeCan(g, s, n, Runs.Connect(true)) && ListenerOf(g, s.nodes[n].pool[s.nodes[n].opening.k]).Some?
  }

  ghost predicate CanDo(g: Config, s: Net, a: Action) {
    match a
    case Local(n, step) => IsLocal(step) && NodeCan(g, s, n, step)
    case ConnectTo(n) => CanConnect(g, s, n)
    case SendIdOn(n, sent, arrives) => (sent ==> arrives) && NodeCan(g, s, n, Runs.SendId(sent))
    case RecvIdOn(n, junk) =>
      |junk| == 24 && NodeCan(g, s, n, Runs.RecvId(None)) && NextDown(s, n).Some?
    case Handle(n, dest, payload, pre, post, behind) =>
      && |payload| + 12 < 0x1_0000_0000
      && |pre| == g.preSize && |post| == g.postSize && NoTag(pre) && |behind| >= 6
      && NodeCan(g, s, n, Runs.Begin([], 0))
    case TransmitOn(n, status, brokenPipe, arrives) =>
      (status.Success? ==> arrives) && NodeCan(g, s, n, Runs.Transmit(status, brokenPipe))
    case CastOn(n, sent, arrives) => (sent ==> arrives) && NodeCan(g, s, n, Runs.CastTransmit)
    case Serve(m, own) => m < |s.hosts| && OfItsOwn(s.hosts[m], own) && Srv.CanDo(s.hosts[m].srv, own)
    case AcceptOn(m) => m < |s.hosts| && CanAccept(s.hosts[m], m, s.conns)
    case TakeIdOn(m, junk) => m < |s.hosts| && CanTakeId(s.hosts[m], s.conns, junk)
    case AnswerOn(m, sent, arrives) => m < |s.hosts| && m < |g.ids| && CanAnswer(s.hosts[m], s.conns, sent, arrives)
    case TakeOn(m, j) => m < |s.hosts| && CanTake(s.hosts[m], s.conns, j)
    case HandOverOn(m, j) => m < |s.hosts| && CanHandOver(s.hosts[m], s.conns, j)
  }

  /** The message on the wire: the frame inside the bytes of the layers below. */
  function Wrapped(pre: seq<byte>, src: U32, dest: U32, payload: seq<byte>, post: seq<byte>): seq<byte> {
    pre + Frame(src, dest, payload) + post
  }

  function NodeDid(g: Config, s: Net, n: nat, step: Runs.Action): Net
    requires NodeCan(g, s, n, step)
  {
    s.(nodes := s.nodes[n := Runs.Do(g.files[n], s.nodes[n], step)])
  }

  /** Puts a message on the stream of slot k, with the order it carries if it is data. */
  function Put(s: Net, n: nat, k: nat, msg: seq<byte>, tag: Option<nat>, arrives: bool): seq<Conn> {
    match LinkOf(s, n, k)
    case None => s.conns
    case Some(c) =>
      if !arrives then s.conns
      else
        var conn := s.conns[c];
        s.conns[c := conn.(up := conn.up + [msg], tags := if tag.Some? then conn.tags + [tag.value] else conn.tags)]
  }

  // ---- the steps of a node's client side ----

  function NewConn(n: nat, k: nat, m: nat): Conn {
    Conn(n, k, m, [], 0, [], [], 0, false, None, [], false, false)
  }

  function Connected(g: Config, s: Net, n: nat): Net
    requires CanConnect(g, s, n)
  {
    var k := s.nodes[n].opening.k;
    var m := ListenerOf(g, s.nodes[n].pool[k]).value;
    NodeDid(g, s, n, Runs.Connect(true)).(links := s.links[(n, k) := |s.conns|], conns := s.conns + [NewConn(n, k, m)])
  }

  function IdSent(g: Config, s: Net, n: nat, sent: bool, arrives: bool): Net
    requires NodeCan(g, s, n, Runs.SendId(sent))
  {
    NodeDid(g, s, n, Runs.SendId(sent)).(
      conns := Put(s, n, s.nodes[n].opening.k, IdFrame(g.ids[n]), None, arrives))
  }

  function IdReceived(g: Config, s: Net, n: nat, junk: seq<byte>): Net
    requires |junk| == 24 && NodeCan(g, s, n, Runs.RecvId(None)) && NextDown(s, n).Some?
  {
    var c := LinkOf(s, n, s.nodes[n].opening.k).value;
    NodeDid(g, s, n, Runs.RecvId(Some(ReceivedInto(junk, NextDown(s, n).value)))).(
      conns := s.conns[c := s.conns[c].(back := s.conns[c].back + 1)])
  }

  /** The framer makes a frame of the payload, the layers below wrap it, and the send handler scans it. */
  function Handled(g: Config, s: Net, n: nat, dest: U32, payload: seq<byte>, pre: seq<byte>, post: seq<byte>,
                   behind: seq<byte>): Net
    requires |behind| >= 6 && NodeCan(g, s, n, Runs.Begin([], 0))
  {
    var msg := Wrapped(pre, g.ids[n], dest, payload, post);
    NodeDid(g, s, n, Runs.Begin(msg, Receiver(msg + behind, |msg|))).(
      orders := s.orders + [Order(n, dest, payload)], serial := s.serial[n := |s.orders|])
  }

  function Transmitted(g: Config, s: Net, n: nat, status: SocketStatus, brokenPipe: bool, arrives: bool): Net
    requires NodeCan(g, s, n, Runs.Transmit(status, brokenPipe))
  {
    var node := s.nodes[n];
    NodeDid(g, s, n, Runs.Transmit(status, brokenPipe)).(
      conns := Put(s, n, LookUp(node.pool, node.sending.receiver), node.sending.msg, Some(s.serial[n]), arrives))
  }

  function CastOut(g: Config, s: Net, n: nat, arrives: bool): Net
    requires NodeCan(g, s, n, Runs.CastTransmit)
  {
    var node := s.nodes[n];
    NodeDid(g, s, n, Runs.CastTransmit).(
      conns := Put(s, n, node.sending.i, node.sending.msg, Some(s.serial[n]), arrives))
  }

  // ---- the steps of a node's server ----

  /** Server m has moved, and with it at most the connection c. */
  function HostDid(s: Net, m: nat, h: Host, conns: seq<Conn>): Net
    requires m < |s.hosts|
  {
    s.(hosts := s.hosts[m := h], conns := conns)
  }

  function Served(s: Net, m: nat, own: Srv.Action): Net
    requires m < |s.hosts| && Srv.CanDo(s.hosts[m].srv, own)
  {
    HostDid(s, m, s.hosts[m].(srv := Srv.Do(s.hosts[m].srv, own)), s.conns)
  }

  function HasAccepted(s: Net, m: nat): Net
    requires m < |s.hosts| && CanAccept(s.hosts[m], m, s.conns)
  {
    var c := NextWaiting(s.conns, m, 0);
    HostDid(s, m, AcceptedBy(s.hosts[m], c), s.conns[c := s.conns[c].(accepted := true)])
  }

  function HasTakenId(s: Net, m: nat, junk: seq<byte>): Net
    requires m < |s.hosts| && CanTakeId(s.hosts[m], s.conns, junk)
  {
    var c := SeatOf(s.hosts[m], s.hosts[m].srv.accept.k).value;
    HostDid(s, m, TookId(s.hosts[m], s.conns[c], junk), s.conns[c := IdTaken(s.conns[c], junk)])
  }

  function AnswerSent(g: Config, s: Net, m: nat, sent: bool, arrives: bool): Net
    requires m < |s.hosts| && m < |g.ids| && CanAnswer(s.hosts[m], s.conns, sent, arrives)
  {
    HostDid(s, m, HasAnswered(s.hosts[m], sent),
            Answered(s.conns, SeatOf(s.hosts[m], s.hosts[m].srv.accept.k), g.ids[m], arrives))
  }

  function HasTaken(s: Net, m: nat, j: nat): Net
    requires m < |s.hosts| && CanTake(s.hosts[m], s.conns, j)
  {
    var h := s.hosts[m];
    var c := SeatOf(h, h.srv.threads[j].k).value;
    HostDid(s, m, Took(h, j, Message(c, s.conns[c].taken)), s.conns[c := Taken(s.conns[c], IsOwn(h, j, c))])
  }

  function HasHandedOver(s: Net, m: nat, j: nat): Net
    requires m < |s.hosts| && CanHandOver(s.hosts[m], s.conns, j)
  {
    var message := s.hosts[m].held[j];
    HostDid(s, m, HandedOver(s.hosts[m], j), s.conns[message.c := HandedUp(s.conns[message.c], message.i)])
  }

  ghost function Do(g: Config, s: Net, a: Action): Net
    requires CanDo(g, s, a)
  {
    match a
    case Local(n, step) => NodeDid(g, s, n, step)
    case ConnectTo(n) => Connected(g, s, n)
    case SendIdOn(n, sent, arrives) => IdSent(g, s, n, sent, arrives)
    case RecvIdOn(n, junk) => IdReceived(g, s, n, junk)
    case Handle(n, dest, payload, pre, post, behind) => Handled(g, s, n, dest, payload, pre, post, behind)
    case TransmitOn(n, status, brokenPipe, arrives) => Transmitted(g, s, n, status, brokenPipe, arrives)
    case CastOn(n, sent, arrives) => CastOut(g, s, n, arrives)
    case Serve(m, own) => Served(s, m, own)
    case AcceptOn(m) => HasAccepted(s, m)
    case TakeIdOn(m, junk) => HasTakenId(s, m, junk)
    case AnswerOn(m, sent, arrives) => AnswerSent(g, s, m, sent, arrives)
    case TakeOn(m, j) => HasTaken(s, m, j)
    case HandOverOn(m, j) => HasHandedOver(s, m, j)
  }

  ghost function Step(g: Config): (Net, Action) -> Option<Net> {
    (s: Net, a: Action) => if CanDo(g, s, a) then Some(Do(g, s, a)) else None
  }

  ghost predicate Reachable(g: Config, s: Net) {
    Reaches(Step(g), Init(g), s)
  }

  // ---- messages ----

  /** What the layers below leave of a message: messages too short for a swarm frame are dropped there. */
  function Unwrapped(g: Config, msg: seq<byte>): Option<seq<byte>> {
    if |msg| < g.preSize + 12 + g.postSize then None else Some(msg[g.preSize..|msg| - g.postSize])
  }

  /** What comes out of the deframer for a message a reader handed up. */
  function Uplink(g: Config, msg: seq<byte>): Option<Delivery> {
    match Unwrapped(g, msg)
    case None => None
    case Some(frame) => Deframe(frame)
  }

  /** The message is the order's frame, from the given source, wrapped by the layers below. */
  ghost predicate Carries(g: Config, msg: seq<byte>, src: U32, order: Order) {
    Unwrapped(g, msg) == Some(Frame(src, order.dest, order.payload))
  }

  lemma WrappedCarries(g: Config, pre: seq<byte>, src: U32, order: Order, post: seq<byte>)
    requires |pre| == g.preSize && |post| == g.postSize
    ensures Carries(g, Wrapped(pre, src, order.dest, order.payload, post), src, order)
  {
    var msg := Wrapped(pre, src, order.dest, order.payload, post);
    assert msg[g.preSize..|msg| - g.postSize] == Frame(src, order.dest, order.payload);
  }

  lemma CarriedIsDelivered(g: Config, msg: seq<byte>, src: U32, order: Order)
    requires Carries(g, msg, src, order)
    ensures Uplink(g, msg) == Some(Delivery(src, order.payload))
  {
    DeframeFrame(src, order.dest, order.payload);
  }

  // ---- the invariant ----

  /** Data message i of a connection carries the order it is tagged with, an order of the client node for the node
      at the other end or for everyone. */
  ghost predicate DataOk(g: Config, orders: seq<Order>, conn: Conn, i: nat)
    requires conn.client < |g.ids| && conn.server < |g.ids|
    requires i < |conn.tags| && |conn.up| == |conn.tags| + 1
  {
    && conn.tags[i] < |orders|
    && var order := orders[conn.tags[i]];
    && order.node == conn.client
    && (order.dest == g.ids[conn.server] || order.dest == BROADCAST)
    && Carries(g, conn.up[i + 1], g.ids[conn.client], order)
  }

  ghost predicate Increasing(q: seq<nat>) {
    forall i, j | 0 <= i < j < |q| :: q[i] < q[j]
  }

  /** What was handed up was taken, once, and was not the ID frame once the handshake took that; as long as only the
      reader started for the connection took from it, it was handed up in order. */
  ghost predicate HandedOk(conn: Conn) {
    && (forall a | 0 <= a < |conn.handed| ::
          conn.handed[a] < conn.taken && (conn.recorded.Some? ==> conn.handed[a] >= 1))
    && (forall a, b | 0 <= a < b < |conn.handed| :: conn.handed[a] != conn.handed[b])
    && (!conn.shared ==> forall a | 0 <= a < |conn.handed| :: conn.handed[a] == a + 1)
  }

  ghost predicate ConnInv(g: Config, orders: seq<Order>, conn: Conn) {
    && conn.client < |g.ids| && conn.server < |g.ids| && conn.slot < MAX_CLIENTS
    && conn.taken <= |conn.up| && conn.back <= |conn.down| <= 1
    && (if conn.up == [] then conn.tags == []
        else conn.up[0] == IdFrame(g.ids[conn.client]) && |conn.up| == |conn.tags| + 1)
    && (forall i | 0 <= i < |conn.tags| :: DataOk(g, orders, conn, i))
    && Increasing(conn.tags)
    && (conn.tags != [] ==> conn.back == 1)
    && (conn.down != [] ==> conn.down[0] == IdFrame(g.ids[conn.server]) && conn.recorded.Some?)
    && (conn.recorded.Some? ==> conn.recorded.value == g.ids[conn.client] && conn.taken >= 1)
    && (!conn.accepted ==> Untouched(conn))
    && HandedOk(conn) && !conn.torn
  }

  /** A client slot that is open is on a connection of its own to the node that listens at its endpoint, as far along as
      the slot says; it lacks an ID only during its handshake. */
  ghost predicate SlotInv(g: Config, s: Net, n: nat, k: nat)
    requires n < |s.nodes| && k < MAX_CLIENTS
  {
    var slot := s.nodes[n].pool[k];
    slot.open ==>
      && LinkOf(s, n, k).Some?
      && var conn := s.conns[LinkOf(s, n, k).value];
      && conn.client == n && conn.slot == k && conn.server < |g.ids|
      && ListenerOf(g, slot) == Some(conn.server)
      && (slot.id != 0 ==> conn.back == 1 && slot.id == g.ids[conn.server])
      && (slot.id == 0 ==> s.nodes[n].opening == Runs.SendingId(k) || s.nodes[n].opening == Runs.ReceivingId(k))
      && (s.nodes[n].opening == Runs.SendingId(k) ==> conn.up == [] && conn.back == 0)
      && (s.nodes[n].opening == Runs.ReceivingId(k) ==> |conn.up| == 1 && conn.back == 0)
  }

  ghost predicate TagsBelow(conn: Conn, bound: nat) {
    forall i | 0 <= i < |conn.tags| :: conn.tags[i] < bound
  }

  /** The sender's buffer carries the node's latest order, which is addressed to r. */
  ghost predicate Current(g: Config, s: Net, n: nat, msg: seq<byte>, r: U32)
    requires n < |s.serial| && n < |g.ids|
  {
    && s.serial[n] < |s.orders|
    && var order := s.orders[s.serial[n]];
    && order.node == n && order.dest == r && Carries(g, msg, g.ids[n], order)
  }

  /** The latest order is on no stream yet; during a broadcast, on none of a slot still to come. */
  ghost predicate SenderInv(g: Config, s: Net, n: nat)
    requires n < |s.nodes| && n < |s.serial| && n < |g.ids|
  {
    match s.nodes[n].sending
    case NoSend => true
    case Breaking(_) => true
    case Routing(msg, r) => Current(g, s, n, msg, r) && OnNoStream(s, n, 0)
    case LookingUp(msg, r) => Current(g, s, n, msg, r) && r != BROADCAST && OnNoStream(s, n, 0)
    case Transmitting(msg, r) => Current(g, s, n, msg, r) && r != BROADCAST && OnNoStream(s, n, 0)
    case CastLooking(msg, i) => Current(g, s, n, msg, BROADCAST) && OnNoStream(s, n, i)
    case CastAsking(msg, i) => Current(g, s, n, msg, BROADCAST) && OnNoStream(s, n, i)
    case CastTransmitting(msg, i) => Current(g, s, n, msg, BROADCAST) && OnNoStream(s, n, i)
  }

  /** No stream of node n from slot `from` on holds the latest order or a later one. */
  ghost predicate OnNoStream(s: Net, n: nat, from: nat)
    requires n < |s.serial|
  {
    forall c | 0 <= c < |s.conns| && s.conns[c].client == n ::
      TagsBelow(s.conns[c], s.serial[n] + if s.conns[c].slot >= from then 0 else 1)
  }

  /** Only a broadcast can be on two streams. */
  ghost predicate UnicastOnce(s: Net) {
    forall c, d, i, j | 0 <= c < d < |s.conns| && 0 <= i < |s.conns[c].tags| && 0 <= j < |s.conns[d].tags|
                        && s.conns[c].tags[i] == s.conns[d].tags[j] && s.conns[c].tags[i] < |s.orders| ::
      s.orders[s.conns[c].tags[i]].dest == BROADCAST
  }

  ghost predicate Sized(g: Config, s: Net) {
    |s.nodes| == |s.hosts| == |s.serial| == |g.ids|
  }

  ghost predicate Nodes(s: Net) {
    forall n | 0 <= n < |s.nodes| :: Runs.Inv(s.nodes[n])
  }

  ghost predicate Slots(g: Config, s: Net) {
    forall n, k | 0 <= n < |s.nodes| && 0 <= k < MAX_CLIENTS :: SlotInv(g, s, n, k)
  }

  ghost predicate Conns(g: Config, s: Net) {
    forall c | 0 <= c < |s.conns| :: ConnInv(g, s.orders, s.conns[c])
  }

  ghost predicate Senders(g: Config, s: Net)
    requires Sized(g, s)
  {
    forall n | 0 <= n < |s.nodes| :: SenderInv(g, s, n)
  }

  /** What concerns the client sides and the streams. */
  ghost predicate ClientInv(g: Config, s: Net)
    requires |g.files| == |g.ids|
  {
    Sized(g, s) && Nodes(s) && Slots(g, s) && Conns(g, s) && Senders(g, s) && UnicastOnce(s)
  }

  ghost predicate HostsInv(s: Net) {
    forall m | 0 <= m < |s.hosts| :: HostOk(m, s.hosts[m], s.conns)
  }

  ghost predicate Inv(g: Config, s: Net)
    requires |g.files| == |g.ids|
  {
    ClientInv(g, s) && HostsInv(s)
  }
}
