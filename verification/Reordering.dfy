/** A run in which two readers of one server slot hand the messages of one connection up in the wrong order. */
module Reordering {
  import opened SwarmTypes
  import opened Collections
  import opened Codec
  import opened RoutingScan
  import opened HostFile
  import opened ParseBuffer
  import opened Hosts
  import opened Network
  import opened Joining
  import opened Completion
  import opened Mesh
  import opened Arrival
  import opened Transitions
  import Pool = ClientPool
  import Opening = OpenTask
  import Servers = ServerPool
  import Runs = ClientRuns
  import Srv = ServerRuns
  import Paths = ServerPaths

  /** Three nodes that connect to a fourth. */
  function Example(): Config {
    Config([1, 2, 3, 4], seq(4, _ => [Endpoint("10.0.0.3", 80)]), map[("10.0.0.3", 80) := 3], 0, 0)
  }

  lemma ExampleOk()
    ensures ConfigOk(Example())
  {
    assert forall n | 0 <= n < 4 :: Encode(Example().ids[n]) == [0, 0, 0, n + 1];
  }

  /** The first r nodes have connected, one after the other, and slot 0 of the server may be open. */
  ghost predicate HaveJoined(s: Net, r: nat) {
    && Sized(Example(), s) && r <= 3 && |s.conns| == r && NobodyWaits(s.conns, 3)
    && (forall i | r <= i < 3 :: s.nodes[i] == Runs.Init())
    && |s.hosts[3].joined| == r && (forall i | 0 <= i < r :: s.hosts[3].joined[i] == i)
    && var v := s.hosts[3].srv;
    && v.protocol && !v.stopped && v.accept.Top? && v.issued == r && v.server.count == r
    && Servers.TasksFit(v.tasks) && |v.threads| == MAX_TASKS && v.tasks.taskCount == r
    && (forall j | 0 <= j < MAX_TASKS :: v.tasks.started[j] <==> j < r)
  }

  lemma OneLineFile(line: Line)
    requires line.Endpoint? && LineFits(line)
    ensures LinesFit([line]) && |Opening.FileKeys([line])| <= 10 && Opening.KeysTellApart([line])
  {
    SubsetSize(Opening.FileKeys([line]), {Opening.LineKey(line)});
  }

  lemma NextIsTheLine(s: Net, n: nat)
    requires |s.nodes| == 4 && n < 3 && s.nodes[n] == Runs.Init()
    ensures |Example().files| == 4 && Example().files[n] == [Endpoint("10.0.0.3", 80)]
    ensures NextLine(Example(), s, n) == Endpoint("10.0.0.3", 80) && Pool.FirstClosed(s.nodes[n].pool, 0) == 0
    ensures ("10.0.0.3", 80) in Example().listens && Example().listens[("10.0.0.3", 80)] == 3
  {
  }

  lemma NewNodeCalls(g: Config, s: Net, n: nat, line: Line, m: nat) returns (t: Net)
    requires ConfigOk(g) && From(g, Init(g), s) && Sized(g, s) && n < |g.ids| && s.nodes[n] == Runs.Init()
    requires g.files[n] == [line] && line.Endpoint? && LineFits(line) && Pool.FirstClosed(s.nodes[n].pool, 0) == 0
    requires Opening.Address(line) in g.listens && g.listens[Opening.Address(line)] == m
    ensures From(g, Init(g), t) && |t.nodes| == |s.nodes| && t == s.(nodes := s.nodes[n := t.nodes[n]])
    ensures Calls(g, t, n, 0, m) && t.nodes[n].sending.NoSend?
  {
    ReachesItself(Step(g), Init(g));
    OneLineFile(line);
    assert KnownAddresses(Runs.Init().pool) == {};
    var node := NewLinePicks(g, Init(g), s, n);
    t := AtNode(s, n, node);
  }

  /** A node that has not done anything yet gets to where it connects its slot 0 to node 3. */
  lemma NodeCalls(s: Net, n: nat) returns (t: Net)
    requires From(Example(), Init(Example()), s) && Sized(Example(), s) && n < 3 && s.nodes[n] == Runs.Init()
    ensures From(Example(), Init(Example()), t) && |t.nodes| == 4 && t == s.(nodes := s.nodes[n := t.nodes[n]])
    ensures Calls(Example(), t, n, 0, 3) && t.nodes[n].sending.NoSend?
  {
    ExampleOk();
    NextIsTheLine(s, n);
    t := NewNodeCalls(Example(), s, n, Endpoint("10.0.0.3", 80), 3);
  }

  /** The server once slot 0 was opened for the next node. */
  lemma ServerAfterJoin(v: Srv.State, r: nat)
    requires r < 3 && v.protocol && !v.stopped && v.accept.Top? && v.issued == r && v.server.count == r
    requires Servers.TasksFit(v.tasks) && |v.threads| == MAX_TASKS && v.tasks.taskCount == r
    requires (forall j | 0 <= j < MAX_TASKS :: v.tasks.started[j] <==> j < r) && !v.server.slots[0].open
    ensures Willing(v) && Servers.FirstUnstarted(v.tasks.started, 0) == r
    ensures var w := Paths.Welcomed(v, Example().ids[r]);
            && w.protocol && !w.stopped && w.accept.Top? && w.issued == r + 1 && w.server.count == r + 1
            && Servers.TasksFit(w.tasks) && |w.threads| == MAX_TASKS && w.tasks.taskCount == r + 1
            && (forall j | 0 <= j < MAX_TASKS :: w.tasks.started[j] <==> j < r + 1)
            && w.server.slots[0].open && w.tickets[0] == r
            && w.threads == v.threads[r := Srv.Running(0, r, Srv.Looping)]
  {
    Paths.PlaceFound(v, 0, r);
  }

  lemma NobodyIsNext(conns: seq<Conn>, m: nat, from: nat)
    requires NobodyWaits(conns, m) && from <= |conns|
    ensures NextWaiting(conns, m, from) == |conns|
  {
  }

  /** The next node connects while slot 0 is closed: slot 0 is opened for it, with a reader of its own. */
  lemma NodeJoins(s: Net, r: nat) returns (t: Net)
    requires From(Example(), Init(Example()), s) && HaveJoined(s, r) && r < 3 && !s.hosts[3].srv.server.slots[0].open
    ensures From(Example(), Init(Example()), t) && HaveJoined(t, r + 1)
    ensures var v := s.hosts[3].srv;
            var w := t.hosts[3].srv;
            && w.server.slots[0].open && w.tickets[0] == r
            && w.threads == v.threads[r := Srv.Running(0, r, Srv.Looping)] && t.hosts[3].held == s.hosts[3].held
    ensures t.conns == s.conns + [MetBoth(Example(), r, 0, 3)] && t.orders == s.orders
    ensures t.links == s.links[(r, 0) := r]
    ensures t.nodes[r].pool[0].open && t.nodes[r].pool[0].id == 4
    ensures t.nodes[r].opening.Reading? && t.nodes[r].sending.NoSend?
  {
    var u := NodeCalls(s, r);
    ServerAfterJoin(s.hosts[3].srv, r);
    NobodyIsNext(s.conns, 3, 0);
    HandshakeSteps(Example(), Init(Example()), u, r, 0, 3);
    t := JoinedNet(Example(), u, r, 0, 3);
    JoinedHaveJoined(s, u, t, r);
  }

  lemma JoinedHaveJoined(s: Net, u: Net, t: Net, r: nat)
    requires HaveJoined(s, r) && r < 3 && !s.hosts[3].srv.server.slots[0].open && |u.nodes| == 4
    requires u == s.(nodes := s.nodes[r := u.nodes[r]]) && Welcoming(u, 3) && t == JoinedNet(Example(), u, r, 0, 3)
    ensures HaveJoined(t, r + 1)
  {
    ServerAfterJoin(s.hosts[3].srv, r);
  }

  /** A reader looks at its slot twice and is about to receive. */
  lemma ReaderPoised(s: Net, r: nat, j: nat) returns (t: Net)
    requires From(Example(), Init(Example()), s) && HaveJoined(s, r) && j < r
    requires s.hosts[3].srv.server.slots[0].open && s.hosts[3].srv.threads[j] == Srv.Running(0, j, Srv.Looping)
    ensures From(Example(), Init(Example()), t) && HaveJoined(t, r) && t == s.(hosts := t.hosts)
    ensures t.hosts[3] == s.hosts[3].(srv := t.hosts[3].srv)
    ensures t.hosts[3].srv == s.hosts[3].srv.(threads := s.hosts[3].srv.threads[j := Srv.Running(0, j, Srv.Receiving)])
  {
    var u := OwnStepLifts(Example(), Init(Example()), s, 3, Srv.Look(j));
    t := OwnStepLifts(Example(), Init(Example()), u, 3, Srv.LookAgain(j, true));
  }

  /** Reader 0 fails to receive, and its transport is closed under it. */
  lemma FirstFails(s: Net) returns (t: Net)
    requires From(Example(), Init(Example()), s) && HaveJoined(s, 1)
    requires s.hosts[3].srv.threads[0] == Srv.Running(0, 0, Srv.Receiving)
    ensures From(Example(), Init(Example()), t) && HaveJoined(t, 1) && t == s.(hosts := t.hosts)
    ensures t.hosts[3] == s.hosts[3].(srv := t.hosts[3].srv) && !t.hosts[3].srv.server.slots[0].open
    ensures t.hosts[3].srv.threads[0] == Srv.Running(0, 0, Srv.Failing)
  {
    t := OwnStepLifts(Example(), Init(Example()), s, 3, Srv.FailReceive(0, true));
  }

  /** Reader 0, having failed, closes its slot's socket, which by now is on the second node's connection. */
  lemma FirstCloses(s: Net) returns (t: Net)
    requires From(Example(), Init(Example()), s) && HaveJoined(s, 2)
    requires s.hosts[3].srv.threads[0] == Srv.Running(0, 0, Srv.Failing)
    ensures From(Example(), Init(Example()), t) && HaveJoined(t, 2) && t == s.(hosts := t.hosts)
    ensures t.hosts[3] == s.hosts[3].(srv := t.hosts[3].srv) && !t.hosts[3].srv.server.slots[0].open
    ensures t.hosts[3].srv.threads[1] == s.hosts[3].srv.threads[1]
  {
    t := OwnStepLifts(Example(), Init(Example()), s, 3, Srv.CloseSocket(0));
  }

  /** Slot 0 is on the third node's connection, and readers 1 and 2 are both about to receive from it. */
  ghost predicate TwoReaders(s: Net) {
    && HaveJoined(s, 3) && s.hosts[3].srv.server.slots[0].open && s.hosts[3].srv.tickets[0] == 2
    && s.hosts[3].srv.threads[1] == Srv.Running(0, 1, Srv.Receiving)
    && s.hosts[3].srv.threads[2] == Srv.Running(0, 2, Srv.Receiving)
    && 1 !in s.hosts[3].held && 2 !in s.hosts[3].held
  }

  lemma FirstJoinsAndFails() returns (s: Net)
    ensures From(Example(), Init(Example()), s) && HaveJoined(s, 1) && !s.hosts[3].srv.server.slots[0].open
    ensures s.hosts[3].srv.threads[0] == Srv.Running(0, 0, Srv.Failing)
    ensures s.hosts[3].held == map[] && s.orders == []
  {
    ReachesItself(Step(Example()), Init(Example()));
    var a := NodeJoins(Init(Example()), 0);
    a := ReaderPoised(a, 1, 0);
    s := FirstFails(a);
  }

  lemma OneReaderLeftBehind() returns (s: Net)
    ensures From(Example(), Init(Example()), s) && HaveJoined(s, 2) && !s.hosts[3].srv.server.slots[0].open
    ensures s.hosts[3].srv.threads[1] == Srv.Running(0, 1, Srv.Receiving)
    ensures s.hosts[3].held == map[] && s.orders == []
  {
    var b := FirstJoinsAndFails();
    var c := NodeJoins(b, 1);
    c := ReaderPoised(c, 2, 1);
    s := FirstCloses(c);
  }

  lemma TwoReadersMeet() returns (s: Net)
    ensures From(Example(), Init(Example()), s) && TwoReaders(s) && s.orders == []
    ensures s.conns[2] == MetBoth(Example(), 2, 0, 3) && LinkOf(s, 2, 0) == Some(2)
    ensures s.nodes[2].pool[0].open && s.nodes[2].pool[0].id == 4
    ensures s.nodes[2].opening.Reading? && s.nodes[2].sending.NoSend?
  {
    var a := OneReaderLeftBehind();
    var b := NodeJoins(a, 2);
    assert b.hosts[3].srv.threads[1] == a.hosts[3].srv.threads[1];
    s := ReaderPoised(b, 3, 2);
  }

  lemma ThirdCanSend(s: Net)
    requires Sized(Example(), s) && s.nodes[2].pool[0].open && s.nodes[2].pool[0].id == 4
    requires s.nodes[2].opening.Reading? && s.nodes[2].sending.NoSend?
    ensures CanSend(Example(), s, 2, 4) && Pool.LookUp(s.nodes[2].pool, 4) == 0 && NoTag(Encode(Example().ids[2]))
  {
    ExampleOk();
  }

  /** The third node sends a payload to the fourth. */
  lemma ThirdSends(s: Net, payload: seq<byte>) returns (t: Net)
    requires From(Example(), Init(Example()), s) && TwoReaders(s) && LinkOf(s, 2, 0) == Some(2) && |payload| < 100
    requires s.nodes[2].pool[0].open && s.nodes[2].pool[0].id == 4
    requires s.nodes[2].opening.Reading? && s.nodes[2].sending.NoSend?
    ensures From(Example(), Init(Example()), t) && TwoReaders(t) && t.hosts == s.hosts && t.nodes == s.nodes
    ensures t.links == s.links
    ensures t.orders == s.orders + [Order(2, 4, payload)] && |t.conns| == |s.conns|
    ensures t.conns[2] == s.conns[2].(up := t.conns[2].up, tags := s.conns[2].tags + [|s.orders|])
    ensures |t.conns[2].up| == |s.conns[2].up| + 1
  {
    ThirdCanSend(s);
    UnicastSent(Example(), Init(Example()), s, 2, 4, payload, [], []);
    t := SentNet(Example(), s, 2, 4, payload, Wrapped([], 3, 4, payload, []));
  }

  lemma ThirdSendsTwice(s: Net) returns (t: Net)
    requires From(Example(), Init(Example()), s) && TwoReaders(s) && s.orders == []
    requires s.conns[2] == MetBoth(Example(), 2, 0, 3) && LinkOf(s, 2, 0) == Some(2)
    requires s.nodes[2].pool[0].open && s.nodes[2].pool[0].id == 4
    requires s.nodes[2].opening.Reading? && s.nodes[2].sending.NoSend?
    ensures From(Example(), Init(Example()), t) && TwoReaders(t)
    ensures t.orders == [Order(2, 4, [1]), Order(2, 4, [2])]
    ensures t.conns[2] == s.conns[2].(up := t.conns[2].up, tags := [0, 1]) && |t.conns[2].up| == 3
  {
    var b := ThirdSends(s, [1]);
    t := ThirdSends(b, [2]);
  }

  /** Of TwoReaders, what the two readers' next steps need: reader 2 is the one that was started for the connection. */
  ghost predicate OnThird(s: Net) {
    && |s.hosts| == 4 && |s.conns| == 3 && s.hosts[3].joined == [0, 1, 2]
    && var v := s.hosts[3].srv;
    && Servers.TasksFit(v.tasks) && |v.threads| == MAX_TASKS && v.server.slots[0].open && v.tickets[0] == 2
    && v.threads[1].Running? && v.threads[1].ticket == 1 && v.threads[1].k == 0
    && v.threads[2].Running? && v.threads[2].ticket == 2 && v.threads[2].k == 0
  }

  /** The server once reader j has taken message i of connection 2. */
  ghost function HostTook(h: Host, j: nat, i: nat): Host
    requires j < |h.srv.threads| && h.srv.threads[j].Running?
  {
    h.(srv := h.srv.(threads := h.srv.threads[j := h.srv.threads[j].(pc := Srv.HandingUp(true, false))]),
       held := h.held[j := Message(2, i)])
  }

  lemma TakesFromThird(s: Net, j: nat)
    requires OnThird(s) && (j == 1 || j == 2) && s.hosts[3].srv.threads[j].pc.Receiving?
    requires s.conns[2].taken < |s.conns[2].up|
    ensures CanTake(s.hosts[3], s.conns, j) && SeatOf(s.hosts[3], 0) == Some(2)
    ensures IsOwn(s.hosts[3], j, 2) <==> j == 2
    ensures Took(s.hosts[3], j, Message(2, s.conns[2].taken)) == HostTook(s.hosts[3], j, s.conns[2].taken)
  {
  }

  /** Reader j takes the next message from the connection slot 0 is on. */
  lemma ReaderTakesNext(s: Net, j: nat) returns (t: Net)
    requires From(Example(), Init(Example()), s) && OnThird(s) && (j == 1 || j == 2)
    requires s.hosts[3].srv.threads[j].pc.Receiving? && s.conns[2].taken < |s.conns[2].up|
    ensures From(Example(), Init(Example()), t) && OnThird(t) && t == s.(hosts := t.hosts, conns := t.conns)
    ensures t.hosts[3] == HostTook(s.hosts[3], j, s.conns[2].taken)
    ensures t.conns == s.conns[2 := s.conns[2].(taken := s.conns[2].taken + 1, shared := s.conns[2].shared || j == 1)]
  {
    TakesFromThird(s, j);
    t := HostDid(s, 3, HostTook(s.hosts[3], j, s.conns[2].taken), s.conns[2 := Taken(s.conns[2], j == 2)]);
    assert t == HasTaken(s, 3, j);
    Go(Example(), Init(Example()), s, TakeOn(3, j));
  }

  lemma ReaderHandsOver(s: Net, j: nat) returns (t: Net)
    requires From(Example(), Init(Example()), s) && OnThird(s) && (j == 1 || j == 2)
    requires s.hosts[3].srv.threads[j].pc == Srv.HandingUp(true, false)
    requires j in s.hosts[3].held && s.hosts[3].held[j].c == 2
    ensures From(Example(), Init(Example()), t) && OnThird(t) && t == s.(hosts := t.hosts, conns := t.conns)
    ensures t.hosts[3].held == s.hosts[3].held - {j}
    ensures forall i | 0 <= i < MAX_TASKS && i != j :: t.hosts[3].srv.threads[i] == s.hosts[3].srv.threads[i]
    ensures t.conns == s.conns[2 := s.conns[2].(handed := s.conns[2].handed + [s.hosts[3].held[j].i])]
  {
    Go(Example(), Init(Example()), s, HandOverOn(3, j));
    t := HasHandedOver(s, 3, j);
  }

  /** Reader 1 takes the first message, reader 2 the second and hands it up first. */
  lemma OvertakenReader(s: Net) returns (t: Net)
    requires From(Example(), Init(Example()), s) && TwoReaders(s)
    requires s.conns[2].taken == 1 && |s.conns[2].up| == 3 && s.conns[2].handed == []
    ensures From(Example(), Init(Example()), t) && |t.conns| == 3 && t.orders == s.orders
    ensures t.conns[2] == s.conns[2].(taken := 3, shared := true, handed := [2, 1])
  {
    assert s.hosts[3].joined == [0, 1, 2];
    var a := ReaderTakesNext(s, 1);
    var b := ReaderTakesNext(a, 2);
    var c := ReaderHandsOver(b, 2);
    t := ReaderHandsOver(c, 1);
    assert [] + [2] + [1] == [2, 1];
  }

  /** A run in which the server hands a client's second payload up before its first: a reader that was started for an
      earlier connection on the same slot took the first and was overtaken by the connection's own reader. */
  lemma OrderCanBeLost() returns (g: Config, s: Net, c: nat)
    ensures ConfigOk(g) && Reachable(g, s) && c < |s.conns| && s.conns[c].recorded.Some?
    ensures s.orders == [Order(2, 4, [1]), Order(2, 4, [2])] && s.conns[c].tags == [0, 1]
    ensures s.conns[c].handed == [2, 1] && s.conns[c].shared
  {
    ExampleOk();
    g, c := Example(), 2;
    var a := TwoReadersMeet();
    var d := ThirdSendsTwice(a);
    s := OvertakenReader(d);
  }
}
