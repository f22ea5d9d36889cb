/** When a connection attempt can go through, from the client's connect to the server's reader. */
module Joining {
  import opened SwarmTypes
  import opened Codec
  import opened ServerPool
  import opened Hosts
  import opened Network
  import opened NetworkSafety
  import opened Transitions
  import Runs = ClientRuns
  import Srv = ServerRuns
  import Paths = ServerPaths
  import Sockets = ServerSockets

  /** The network can get from s0 to s. */
  ghost predicate From(g: Config, s0: Net, s: Net) {
    Reaches(Step(g), s0, s)
  }

  lemma Go(g: Config, s0: Net, s: Net, a: Action)
    requires From(g, s0, s) && CanDo(g, s, a)
    ensures From(g, s0, Do(g, s, a))
  {
    ReachesNext(Step(g), s0, s, a, Do(g, s, a));
  }

  lemma FromInv(g: Config, s0: Net, s: Net)
    requires ConfigOk(g) && Inv(g, s0) && From(g, s0, s)
    ensures Inv(g, s)
  {
    var inv := (x: Net) => Inv(g, x);
    forall x: Net, a | inv(x) && Step(g)(x, a).Some?
      ensures inv(Step(g)(x, a).value)
    {
      StepKeepsInv(g, x, a);
    }
    InvariantHolds(Step(g), inv, s0, s);
  }

  // ---- the client's half ----

  /** Node n's connection task is about to connect slot k to node m. */
  ghost predicate Calls(g: Config, s: Net, n: nat, k: nat, m: nat) {
    && n < |s.nodes| && k < MAX_CLIENTS && s.nodes[n].opening == Runs.Connecting(k)
    && ListenerOf(g, s.nodes[n].pool[k]) == Some(m)
  }

  /** The new connection once the client has sent its ID. */
  function Introduced(g: Config, n: nat, k: nat, m: nat): Conn
    requires n < |g.ids|
  {
    NewConn(n, k, m).(up := [IdFrame(g.ids[n])])
  }

  /** The network once node n waits for the server's ID. */
  ghost function CalledNet(g: Config, s: Net, n: nat, k: nat, m: nat): Net
    requires n < |s.nodes| && n < |g.ids| && k < MAX_CLIENTS
  {
    var node := s.nodes[n];
    s.(nodes := s.nodes[n := node.(pool := node.pool[k := node.pool[k].(open := true)],
                                   opening := Runs.ReceivingId(k))],
       links := s.links[(n, k) := |s.conns|], conns := s.conns + [Introduced(g, n, k, m)])
  }

  lemma ClientCalls(g: Config, s0: Net, s: Net, n: nat, k: nat, m: nat)
    requires From(g, s0, s) && |g.files| == |g.ids| && Sized(g, s) && Calls(g, s, n, k, m)
    ensures From(g, s0, CalledNet(g, s, n, k, m))
  {
    Go(g, s0, s, ConnectTo(n));
    var t := Connected(g, s, n);
    Go(g, s0, t, SendIdOn(n, true, true));
    var u := IdSent(g, t, n, true, true);
    assert u.nodes == CalledNet(g, s, n, k, m).nodes;
    assert LinkOf(t, n, k) == Some(|s.conns|) && u.conns[|s.conns|] == Introduced(g, n, k, m);
    assert u.conns == CalledNet(g, s, n, k, m).conns;
  }

  /** Node n once it has the server's ID. */
  ghost function Identified(node: Runs.State, k: nat, id: U32): Runs.State
    requires k < MAX_CLIENTS
  {
    node.(pool := node.pool[k := node.pool[k].(open := true, id := id)], opening := Runs.Reading)
  }

  /** Node n waits on slot k for the ID that is on connection c. */
  ghost predicate AwaitsId(g: Config, s: Net, n: nat, k: nat, c: nat) {
    && |g.files| == |g.ids| && Sized(g, s) && n < |s.nodes| && k < MAX_CLIENTS
    && s.nodes[n].opening == Runs.ReceivingId(k) && s.nodes[n].pool[k].open && LinkOf(s, n, k) == Some(c)
    && s.conns[c].back == 0 && s.conns[c].server < |g.ids|
    && s.conns[c].down == [IdFrame(g.ids[s.conns[c].server])]
  }

  lemma NodeIdentifies(g: Config, s: Net, n: nat, k: nat, c: nat, junk: seq<byte>)
    requires AwaitsId(g, s, n, k, c) && |junk| == 24
    ensures CanDo(g, s, RecvIdOn(n, junk))
    ensures Runs.Do(g.files[n], s.nodes[n], Runs.RecvId(Some(ReceivedInto(junk, s.conns[c].down[0]))))
            == Identified(s.nodes[n], k, g.ids[s.conns[c].server])
  {
    HandshakeRoundTrip(g.ids[s.conns[c].server], junk);
  }

  lemma ClientIsAnswered(g: Config, s0: Net, s: Net, n: nat, k: nat, c: nat)
    requires From(g, s0, s) && AwaitsId(g, s, n, k, c)
    ensures From(g, s0, s.(nodes := s.nodes[n := Identified(s.nodes[n], k, g.ids[s.conns[c].server])],
                           conns := s.conns[c := s.conns[c].(back := 1)]))
  {
    var junk: seq<byte> := seq(24, _ => 0);
    NodeIdentifies(g, s, n, k, c, junk);
    Go(g, s0, s, RecvIdOn(n, junk));
  }

  // ---- the server's half ----

  /** A connection that waits to be accepted, with the client's ID on it. */
  ghost predicate Waits(g: Config, conn: Conn, m: nat) {
    && conn.server == m < |g.ids| && conn.client < |g.ids| && Untouched(conn)
    && conn.up == [IdFrame(g.ids[conn.client])] && !conn.torn
  }

  /** The accept task is at the top of its loop and its guard passes. */
  ghost predicate Willing(v: Srv.State) {
    && v.protocol && !v.stopped && v.accept.Top? && TasksFit(v.tasks) && |v.threads| == MAX_TASKS
    && Sockets.GuardPasses(v.server, v.tasks) && FirstClosed(v.server.slots, 0) < MAX_CLIENTS
  }

  /** The server once it has accepted, identified and answered a client. */
  ghost function HasMet(v: Srv.State, id: U32): Srv.State
    requires FirstClosed(v.server.slots, 0) < MAX_CLIENTS
  {
    var k := FirstClosed(v.server.slots, 0);
    v.(server := Server(v.server.slots[k := ServerPool.Slot(true, id)], v.server.count + 1),
       tickets := v.tickets[k := v.issued], issued := v.issued + 1, accept := Srv.Ready(k))
  }

  /** The connection once the server has recorded the client's ID and sent its own. */
  function Met(g: Config, conn: Conn): Conn
    requires conn.client < |g.ids| && conn.server < |g.ids|
  {
    conn.(accepted := true, taken := 1, recorded := Some(g.ids[conn.client]), down := [IdFrame(g.ids[conn.server])])
  }

  ghost function AcceptedHost(h: Host, c: nat): Host
    requires FirstClosed(h.srv.server.slots, 0) < MAX_CLIENTS
  {
    var k := FirstClosed(h.srv.server.slots, 0);
    Host(h.srv.(server := Opened(h.srv.server), tickets := h.srv.tickets[k := h.srv.issued], issued := h.srv.issued + 1,
                accept := Srv.Joined(k)), h.joined + [c], h.held)
  }

  lemma ServerAccepts(g: Config, s0: Net, s: Net, m: nat, c: nat)
    requires From(g, s0, s) && m < |s.hosts| && c < |s.conns| && Waits(g, s.conns[c], m)
    requires NextWaiting(s.conns, m, 0) == c && Willing(s.hosts[m].srv)
    ensures From(g, s0, HostDid(s, m, AcceptedHost(s.hosts[m], c), s.conns[c := s.conns[c].(accepted := true)]))
  {
    Go(g, s0, s, Serve(m, Srv.Guard));
    var u := Served(s, m, Srv.Guard);
    Go(g, s0, u, AcceptOn(m));
    assert HasAccepted(u, m) == HostDid(s, m, AcceptedHost(s.hosts[m], c), s.conns[c := s.conns[c].(accepted := true)]);
  }

  ghost function IdentifiedHost(h: Host, k: nat, id: U32): Host
    requires k < MAX_CLIENTS
  {
    h.(srv := h.srv.(server := h.srv.server.(slots := h.srv.server.slots[k := h.srv.server.slots[k].(id := id)]),
                     accept := Srv.Identified(k)))
  }

  lemma ServerIdentifies(g: Config, s0: Net, s: Net, m: nat, c: nat, k: nat)
    requires From(g, s0, s) && m < |s.hosts| && c < |s.conns| && k < MAX_CLIENTS
    requires var v := s.hosts[m].srv;
             v.accept == Srv.Joined(k) && v.protocol && TasksFit(v.tasks) && |v.threads| == MAX_TASKS
    requires SeatOf(s.hosts[m], k) == Some(c) && s.conns[c].taken == 0 && !s.conns[c].torn
    requires s.conns[c].client < |g.ids| && s.conns[c].up == [IdFrame(g.ids[s.conns[c].client])]
    ensures var id := g.ids[s.conns[c].client];
            From(g, s0, HostDid(s, m, IdentifiedHost(s.hosts[m], k, id),
                                s.conns[c := s.conns[c].(taken := 1, recorded := Some(id))]))
  {
    var junk: seq<byte> := seq(6, _ => 0);
    HandshakeRoundTrip(g.ids[s.conns[c].client], junk);
    Go(g, s0, s, TakeIdOn(m, junk));
  }

  lemma ServerAnswers(g: Config, s0: Net, s: Net, m: nat, c: nat, k: nat)
    requires From(g, s0, s) && m < |s.hosts| && m < |g.ids| && c < |s.conns| && k < MAX_CLIENTS
    requires var v := s.hosts[m].srv;
             v.accept == Srv.Identified(k) && TasksFit(v.tasks) && |v.threads| == MAX_TASKS
    requires SeatOf(s.hosts[m], k) == Some(c) && s.conns[c].down == []
    ensures From(g, s0, HostDid(s, m, s.hosts[m].(srv := s.hosts[m].srv.(accept := Srv.Ready(k))),
                                s.conns[c := s.conns[c].(down := [IdFrame(g.ids[m])])]))
  {
    Go(g, s0, s, AnswerOn(m, true, true));
    var t := AnswerSent(g, s, m, true, true);
    assert t.conns[c] == s.conns[c].(down := [IdFrame(g.ids[m])]);
    assert t.conns == s.conns[c := s.conns[c].(down := [IdFrame(g.ids[m])])];
  }

  /** The three steps together. */
  lemma MeetingIsThreeSteps(g: Config, s: Net, m: nat, c: nat)
    requires m < |s.hosts| && c < |s.conns| && Waits(g, s.conns[c], m) && Willing(s.hosts[m].srv)
    requires |s.hosts[m].joined| == s.hosts[m].srv.issued
    ensures var k := FirstClosed(s.hosts[m].srv.server.slots, 0);
            var id := g.ids[s.conns[c].client];
            && SeatOf(AcceptedHost(s.hosts[m], c), k) == Some(c)
            && SeatOf(IdentifiedHost(AcceptedHost(s.hosts[m], c), k, id), k) == Some(c)
            && IdentifiedHost(AcceptedHost(s.hosts[m], c), k, id).srv.(accept := Srv.Ready(k))
               == HasMet(s.hosts[m].srv, id)
  {
    var (k, id) := (FirstClosed(s.hosts[m].srv.server.slots, 0), g.ids[s.conns[c].client]);
    assert IdentifiedHost(AcceptedHost(s.hosts[m], c), k, id).srv.server.slots
        == HasMet(s.hosts[m].srv, id).server.slots;
  }

  /** The network after the meeting. */
  ghost function MetNet(g: Config, s: Net, m: nat, c: nat): Net
    requires m < |s.hosts| && c < |s.conns| && s.conns[c].client < |g.ids| && s.conns[c].server < |g.ids|
    requires FirstClosed(s.hosts[m].srv.server.slots, 0) < MAX_CLIENTS
  {
    var h := s.hosts[m];
    HostDid(s, m, Host(HasMet(h.srv, g.ids[s.conns[c].client]), h.joined + [c], h.held),
            s.conns[c := Met(g, s.conns[c])])
  }

  /** A waiting client that is the server's next is accepted, identified and answered. */
  lemma ServerMeets(g: Config, s0: Net, s: Net, m: nat, c: nat)
    requires From(g, s0, s) && m < |s.hosts| && c < |s.conns| && Waits(g, s.conns[c], m)
    requires NextWaiting(s.conns, m, 0) == c && Willing(s.hosts[m].srv) && |s.hosts[m].joined| == s.hosts[m].srv.issued
    ensures From(g, s0, MetNet(g, s, m, c))
  {
    var (k, id) := (FirstClosed(s.hosts[m].srv.server.slots, 0), g.ids[s.conns[c].client]);
    MeetingIsThreeSteps(g, s, m, c);
    ServerAccepts(g, s0, s, m, c);
    var t := HostDid(s, m, AcceptedHost(s.hosts[m], c), s.conns[c := s.conns[c].(accepted := true)]);
    ServerIdentifies(g, s0, t, m, c, k);
    var u := HostDid(t, m, IdentifiedHost(t.hosts[m], k, id),
                     t.conns[c := t.conns[c].(taken := 1, recorded := Some(id))]);
    ServerAnswers(g, s0, u, m, c, k);
    assert u.conns[c := u.conns[c].(down := [IdFrame(g.ids[m])])] == s.conns[c := Met(g, s.conns[c])];
    var h := u.hosts[m].(srv := u.hosts[m].srv.(accept := Srv.Ready(k)));
    assert h == MetNet(g, s, m, c).hosts[m];
    assert u.hosts[m := h] == s.hosts[m := h];
  }

  // ---- a handshake on a server that is ready for it ----

  /** Server m is at the top of its accept loop, has room and a pool entry, and nobody waits for it. */
  ghost predicate Welcoming(s: Net, m: nat) {
    && m < |s.hosts| && Willing(s.hosts[m].srv) && FirstUnstarted(s.hosts[m].srv.tasks.started, 0) < MAX_TASKS
    && NextWaiting(s.conns, m, 0) == |s.conns|
  }

  /** The connection once both ends know each other. */
  function MetBoth(g: Config, n: nat, k: nat, m: nat): Conn
    requires n < |g.ids| && m < |g.ids|
  {
    Met(g, Introduced(g, n, k, m)).(back := 1)
  }

  /** The network after node n's slot k has connected to a welcoming server m: the slot carries m's ID, m has recorded
      n's, a new reader is at the top of its loop, and nothing else has changed. */
  ghost function JoinedNet(g: Config, s: Net, n: nat, k: nat, m: nat): Net
    requires n < |s.nodes| && n < |g.ids| && m < |g.ids| && k < MAX_CLIENTS && Welcoming(s, m)
  {
    var h := s.hosts[m];
    s.(nodes := s.nodes[n := Identified(s.nodes[n], k, g.ids[m])],
       hosts := s.hosts[m := Host(Paths.Welcomed(h.srv, g.ids[n]), h.joined + [|s.conns|], h.held)],
       links := s.links[(n, k) := |s.conns|],
       conns := s.conns + [MetBoth(g, n, k, m)])
  }

  lemma NextWaitingIsNew(conns: seq<Conn>, conn: Conn, m: nat, from: nat)
    requires from <= |conns| && NextWaiting(conns, m, from) == |conns| && conn.server == m && !conn.accepted
    ensures NextWaiting(conns + [conn], m, from) == |conns|
    decreases |conns| - from
  {
    if from < |conns| {
      NextWaitingIsNew(conns, conn, m, from + 1);
    }
  }

  lemma ReaderStarts(g: Config, s0: Net, s: Net, m: nat)
    requires From(g, s0, s) && m < |s.hosts| && s.hosts[m].srv.accept.Ready? && s.hosts[m].srv.accept.k < MAX_CLIENTS
    requires TasksFit(s.hosts[m].srv.tasks) && |s.hosts[m].srv.threads| == MAX_TASKS
    ensures From(g, s0, Served(s, m, Srv.StartReader))
  {
    Go(g, s0, s, Serve(m, Srv.StartReader));
  }

  lemma HandshakeSteps(g: Config, s0: Net, s: Net, n: nat, k: nat, m: nat)
    requires |g.files| == |g.ids| && Sized(g, s) && m < |g.ids| && From(g, s0, s)
    requires Calls(g, s, n, k, m) && Welcoming(s, m) && |s.hosts[m].joined| == s.hosts[m].srv.issued
    ensures From(g, s0, JoinedNet(g, s, n, k, m))
  {
    var c := |s.conns|;
    ClientCalls(g, s0, s, n, k, m);
    var t := CalledNet(g, s, n, k, m);
    NextWaitingIsNew(s.conns, Introduced(g, n, k, m), m, 0);
    ServerMeets(g, s0, t, m, c);
    var u := MetNet(g, t, m, c);
    ReaderStarts(g, s0, u, m);
    var w := Served(u, m, Srv.StartReader);
    ClientIsAnswered(g, s0, w, n, k, c);
    StepsMakeJoined(g, s, n, k, m, t, u, w);
  }

  lemma StepsMakeJoined(g: Config, s: Net, n: nat, k: nat, m: nat, t: Net, u: Net, w: Net)
    requires |g.files| == |g.ids| && Sized(g, s) && m < |g.ids| && Calls(g, s, n, k, m) && Welcoming(s, m)
    requires t == CalledNet(g, s, n, k, m) && u == MetNet(g, t, m, |s.conns|)
    requires Srv.CanDo(u.hosts[m].srv, Srv.StartReader) && w == Served(u, m, Srv.StartReader)
    ensures w.(nodes := w.nodes[n := Identified(w.nodes[n], k, g.ids[m])],
               conns := w.conns[|s.conns| := w.conns[|s.conns|].(back := 1)]) == JoinedNet(g, s, n, k, m)
  {
    var j := JoinedNet(g, s, n, k, m);
    assert w.hosts[m].srv == Paths.Welcomed(s.hosts[m].srv, g.ids[n]);
    assert w.hosts == j.hosts;
    assert w.conns[|s.conns| := w.conns[|s.conns|].(back := 1)] == j.conns;
    assert Identified(w.nodes[n], k, g.ids[m]).pool == j.nodes[n].pool;
    assert w.nodes[n := Identified(w.nodes[n], k, g.ids[m])] == j.nodes;
  }

  lemma JoinedIsRead(g: Config, s: Net, n: nat, k: nat, m: nat) returns (j: nat)
    requires Sized(g, s) && n < |g.ids| && m < |g.ids| && k < MAX_CLIENTS && Welcoming(s, m)
    requires |s.hosts[m].joined| == s.hosts[m].srv.issued
    ensures var t := JoinedNet(g, s, n, k, m);
            && IsOwn(t.hosts[m], j, |s.conns|) && t.hosts[m].srv.threads[j].pc.Looping?
            && SeatOf(t.hosts[m], t.hosts[m].srv.threads[j].k) == Some(|s.conns|)
  {
    j := FirstUnstarted(s.hosts[m].srv.tasks.started, 0);
  }

  /** A connection attempt at an endpoint where a welcoming server listens can go through: the slot then carries the ID
      of that node, which has recorded the client's, and a reader of its own is up for the connection. */
  lemma HandshakeCompletes(g: Config, s: Net, n: nat, k: nat, m: nat) returns (t: Net, j: nat)
    requires ConfigOk(g) && Reachable(g, s) && Calls(g, s, n, k, m) && Welcoming(s, m)
    ensures From(g, s, t) && Sized(g, t) && n < |g.ids| && m < |g.ids| && |s.conns| < |t.conns|
    ensures t.nodes[n].opening.Reading? && t.nodes[n].pool[k].open && t.nodes[n].pool[k].id == g.ids[m]
    ensures LinkOf(t, n, k) == Some(|s.conns|) && t.conns[|s.conns|].server == m
    ensures t.conns[|s.conns|].recorded == Some(g.ids[n])
    ensures IsOwn(t.hosts[m], j, |s.conns|) && t.hosts[m].srv.threads[j].pc.Looping?
    ensures SeatOf(t.hosts[m], t.hosts[m].srv.threads[j].k) == Some(|s.conns|)
  {
    ReachableInv(g, s);
    JoinedAreIssued(g, s, m);
    ReachesItself(Step(g), s);
    HandshakeSteps(g, s, s, n, k, m);
    t := JoinedNet(g, s, n, k, m);
    j := JoinedIsRead(g, s, n, k, m);
  }

  lemma JoinedAreIssued(g: Config, s: Net, m: nat)
    requires |g.files| == |g.ids| && Inv(g, s) && m < |s.hosts|
    ensures Sized(g, s) && m < |g.ids| && |s.hosts[m].joined| == s.hosts[m].srv.issued
  {
    assert HostOk(m, s.hosts[m], s.conns);
  }
}
