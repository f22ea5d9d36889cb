/** Exactly when a connection attempt can still go through: as long as the server has not lost all of its places. */
module Completion {
  import opened SwarmTypes
  import opened ServerPool
  import opened Hosts
  import opened Network
  import opened NetworkSafety
  import opened Joining
  import opened Transitions
  import Srv = ServerRuns
  import Paths = ServerPaths
  import Room = ServerRoom

  // ---- what a server does by itself, in the network ----

  /** Only server m has moved, and nothing a client looks at. */
  ghost predicate Beside(s: Net, t: Net, m: nat) {
    && t == s.(hosts := t.hosts, conns := t.conns) && |t.hosts| == |s.hosts| && |t.conns| == |s.conns|
    && (forall i | 0 <= i < |s.hosts| && i != m :: t.hosts[i] == s.hosts[i])
    && (forall c | 0 <= c < |s.conns| :: SameForClient(s.conns[c], t.conns[c]))
  }

  /** And nobody new was accepted. */
  ghost predicate SameWaiting(s: Net, t: Net) {
    |t.conns| == |s.conns| && forall c | 0 <= c < |s.conns| :: t.conns[c].accepted == s.conns[c].accepted
  }

  lemma AnswerLifts(g: Config, s0: Net, s: Net, m: nat, sent: bool) returns (t: Net)
    requires From(g, s0, s) && m < |s.hosts| && m < |g.ids| && HostOk(m, s.hosts[m], s.conns)
    requires Srv.CanDo(s.hosts[m].srv, Srv.SendServerId(sent))
    ensures From(g, s0, t) && Beside(s, t, m) && SameWaiting(s, t)
    ensures t.hosts[m].srv == Srv.Do(s.hosts[m].srv, Srv.SendServerId(sent))
  {
    Go(g, s0, s, AnswerOn(m, sent, sent));
    t := AnswerSent(g, s, m, sent, sent);
  }

  lemma HandUpLifts(g: Config, s0: Net, s: Net, m: nat, j: nat) returns (t: Net)
    requires From(g, s0, s) && m < |s.hosts| && HeldOk(m, s.hosts[m], s.conns, j) && j in s.hosts[m].held
    requires Srv.CanDo(s.hosts[m].srv, Srv.HandUp(j))
    ensures From(g, s0, t) && Beside(s, t, m) && SameWaiting(s, t)
    ensures t.hosts[m].srv == Srv.Do(s.hosts[m].srv, Srv.HandUp(j))
  {
    Go(g, s0, s, HandOverOn(m, j));
    t := HasHandedOver(s, m, j);
  }

  lemma OwnStepLifts(g: Config, s0: Net, s: Net, m: nat, a: Srv.Action) returns (t: Net)
    requires From(g, s0, s) && m < |s.hosts| && Srv.CanDo(s.hosts[m].srv, a) && OfItsOwn(s.hosts[m], a)
    ensures From(g, s0, t) && Beside(s, t, m) && t.conns == s.conns
    ensures t.hosts[m] == s.hosts[m].(srv := Srv.Do(s.hosts[m].srv, a))
  {
    Go(g, s0, s, Serve(m, a));
    t := Served(s, m, a);
  }

  /** A quiet step of a server can be taken in the network. */
  lemma QuietStepLifts(g: Config, s0: Net, s: Net, m: nat, a: Srv.Action) returns (t: Net)
    requires From(g, s0, s) && m < |s.hosts| && m < |g.ids| && HostOk(m, s.hosts[m], s.conns)
    requires Srv.CanDo(s.hosts[m].srv, a) && Room.Quiet(a)
    ensures From(g, s0, t) && Beside(s, t, m) && SameWaiting(s, t)
    ensures t.hosts[m].srv == Srv.Do(s.hosts[m].srv, a)
  {
    if a.SendServerId? {
      t := AnswerLifts(g, s0, s, m, a.sent);
    } else if a.HandUp? && a.j in s.hosts[m].held {
      t := HandUpLifts(g, s0, s, m, a.j);
    } else {
      t := OwnStepLifts(g, s0, s, m, a);
    }
  }

  lemma {:induction false} QuietRunLifts(g: Config, s0: Net, s: Net, m: nat, actions: seq<Srv.Action>, v: Srv.State)
    returns (t: Net)
    requires ConfigOk(g) && Inv(g, s0) && From(g, s0, s) && m < |s.hosts|
    requires Exec(Room.QuietStep(), s.hosts[m].srv, actions) == Some(v)
    ensures From(g, s0, t) && Beside(s, t, m) && SameWaiting(s, t) && t.hosts[m].srv == v
    decreases |actions|
  {
    t := s;
    if actions != [] {
      FromInv(g, s0, s);
      assert HostOk(m, s.hosts[m], s.conns);
      var u := QuietStepLifts(g, s0, s, m, actions[0]);
      t := QuietRunLifts(g, s0, u, m, actions[1..], v);
    }
  }

  /** A server that has not lost all of its places can get ready to accept, whatever it is doing. */
  lemma ServerRecoversHere(g: Config, s0: Net, s: Net, m: nat) returns (t: Net)
    requires ConfigOk(g) && Inv(g, s0) && From(g, s0, s) && m < |s.hosts|
    requires !s.hosts[m].srv.stopped && Room.Lost(s.hosts[m].srv) < MAX_CLIENTS
    ensures From(g, s0, t) && Beside(s, t, m) && SameWaiting(s, t) && Willing(t.hosts[m].srv)
    ensures Room.Lost(t.hosts[m].srv) == Room.Lost(s.hosts[m].srv)
  {
    FromInv(g, s0, s);
    assert HostOk(m, s.hosts[m], s.conns);
    var v := Room.ServerRecovers(s.hosts[m].srv);
    var actions :| Exec(Room.QuietStep(), s.hosts[m].srv, actions) == Some(v);
    t := QuietRunLifts(g, s0, s, m, actions, v);
    Srv.RoomMeansClosedSlot(v);
  }

  lemma ServerRecoversWithEntryHere(g: Config, s0: Net, s: Net, m: nat) returns (t: Net)
    requires ConfigOk(g) && Inv(g, s0) && From(g, s0, s) && m < |s.hosts|
    requires !s.hosts[m].srv.stopped && Room.Lost(s.hosts[m].srv) < MAX_CLIENTS && Room.EntryToCome(s.hosts[m].srv)
    ensures From(g, s0, t) && Beside(s, t, m) && SameWaiting(s, t) && Willing(t.hosts[m].srv)
    ensures FirstUnstarted(t.hosts[m].srv.tasks.started, 0) < MAX_TASKS
  {
    FromInv(g, s0, s);
    assert HostOk(m, s.hosts[m], s.conns);
    var v := Room.ServerRecoversWithEntry(s.hosts[m].srv);
    var actions :| Exec(Room.QuietStep(), s.hosts[m].srv, actions) == Some(v);
    t := QuietRunLifts(g, s0, s, m, actions, v);
    Srv.RoomMeansClosedSlot(v);
  }

  lemma ServerRenewsHere(g: Config, s0: Net, s: Net, m: nat) returns (t: Net)
    requires ConfigOk(g) && Inv(g, s0) && From(g, s0, s) && m < |s.hosts|
    requires !s.hosts[m].srv.stopped && Room.Lost(s.hosts[m].srv) < MAX_CLIENTS && !Room.Exhausted(s.hosts[m].srv)
    ensures From(g, s0, t) && Beside(s, t, m) && SameWaiting(s, t) && Willing(t.hosts[m].srv)
    ensures Room.Lost(t.hosts[m].srv) == Room.Lost(s.hosts[m].srv) && Room.Renewed(t.hosts[m].srv)
  {
    FromInv(g, s0, s);
    assert HostOk(m, s.hosts[m], s.conns);
    var v := Room.ServerRenews(s.hosts[m].srv);
    var actions :| Exec(Room.QuietStep(), s.hosts[m].srv, actions) == Some(v);
    t := QuietRunLifts(g, s0, s, m, actions, v);
    Srv.RoomMeansClosedSlot(v);
  }

  // ---- clients that wait before ours ----

  lemma OneAccepted(g: Config, s0: Net, s: Net, m: nat) returns (t: Net)
    requires From(g, s0, s) && m < |s.hosts| && Willing(s.hosts[m].srv) && NextWaiting(s.conns, m, 0) < |s.conns|
    ensures From(g, s0, t) && Beside(s, t, m)
    ensures var c := NextWaiting(s.conns, m, 0);
            t.conns == s.conns[c := s.conns[c].(accepted := true)] && t.hosts[m] == AcceptedHost(s.hosts[m], c)
  {
    var u := OwnStepLifts(g, s0, s, m, Srv.Guard);
    Go(g, s0, u, AcceptOn(m));
    t := HasAccepted(u, m);
  }

  /** A server that dropped the client it had just accepted is as willing as before. */
  lemma DroppingIsHarmless(v: Srv.State, k: nat)
    requires Willing(v) && k == FirstClosed(v.server.slots, 0)
    ensures var w := v.(server := Opened(v.server), tickets := v.tickets[k := v.issued], issued := v.issued + 1,
                        accept := Srv.Joined(k));
            && Srv.CanDo(w, Srv.RecvClientId(None))
            && Srv.CanDo(Srv.Do(w, Srv.RecvClientId(None)), Srv.Drop)
            && Willing(Srv.Do(Srv.Do(w, Srv.RecvClientId(None)), Srv.Drop))
            && Room.Lost(Srv.Do(Srv.Do(w, Srv.RecvClientId(None)), Srv.Drop)) == Room.Lost(v)
  {
    var w := v.(server := Opened(v.server), tickets := v.tickets[k := v.issued], issued := v.issued + 1,
                accept := Srv.Joined(k));
    var x := Srv.Do(Srv.Do(w, Srv.RecvClientId(None)), Srv.Drop);
    assert x.server.slots == v.server.slots[k := CLOSED];
    assert !x.server.slots[k].open;
  }

  /** The next waiting client is accepted and, its ID not arriving, dropped. */
  lemma OneDropped(g: Config, s0: Net, s: Net, m: nat) returns (t: Net)
    requires From(g, s0, s) && m < |s.hosts| && Willing(s.hosts[m].srv) && NextWaiting(s.conns, m, 0) < |s.conns|
    ensures From(g, s0, t) && Beside(s, t, m) && Willing(t.hosts[m].srv)
    ensures Room.Lost(t.hosts[m].srv) == Room.Lost(s.hosts[m].srv) && Room.SamePool(s.hosts[m].srv, t.hosts[m].srv)
    ensures var c := NextWaiting(s.conns, m, 0);
            t.conns == s.conns[c := s.conns[c].(accepted := true)]
  {
    DroppingIsHarmless(s.hosts[m].srv, FirstClosed(s.hosts[m].srv.server.slots, 0));
    var u := OneAccepted(g, s0, s, m);
    var w := OwnStepLifts(g, s0, u, m, Srv.RecvClientId(None));
    t := OwnStepLifts(g, s0, w, m, Srv.Drop);
  }

  lemma NextWaitingMoves(conns: seq<Conn>, m: nat, from: nat)
    requires from <= |conns| && NextWaiting(conns, m, from) < |conns|
    ensures var c := NextWaiting(conns, m, from);
            NextWaiting(conns[c := conns[c].(accepted := true)], m, from) > c
    decreases |conns| - from
  {
    var c := NextWaiting(conns, m, from);
    if from < c {
      NextWaitingMoves(conns, m, from + 1);
    }
  }

  lemma {:induction false} QueueDrains(g: Config, s0: Net, s: Net, m: nat, c: nat) returns (t: Net)
    requires From(g, s0, s) && m < |s.hosts| && Willing(s.hosts[m].srv)
    requires c < |s.conns| && s.conns[c].server == m && !s.conns[c].accepted
    ensures From(g, s0, t) && Beside(s, t, m) && Willing(t.hosts[m].srv)
    ensures Room.Lost(t.hosts[m].srv) == Room.Lost(s.hosts[m].srv) && Room.SamePool(s.hosts[m].srv, t.hosts[m].srv)
    ensures NextWaiting(t.conns, m, 0) == c && t.conns[c] == s.conns[c]
    decreases c - NextWaiting(s.conns, m, 0)
  {
    t := s;
    if NextWaiting(s.conns, m, 0) < c {
      NextWaitingMoves(s.conns, m, 0);
      var u := OneDropped(g, s0, s, m);
      t := QueueDrains(g, s0, u, m, c);
    }
  }

  // ---- the attempt goes through ----

  /** Node n's slot k carries the ID of server m, through a connection made after s. */
  ghost predicate Completed(g: Config, s: Net, t: Net, n: nat, k: nat, m: nat) {
    && n < |t.nodes| && k < MAX_CLIENTS && m < |g.ids| && LinkOf(t, n, k).Some? && LinkOf(t, n, k).value >= |s.conns|
    && t.conns[LinkOf(t, n, k).value].server == m
    && t.nodes[n].pool[k].open && t.nodes[n].pool[k].id == g.ids[m]
  }

  /** What the attempt changes besides: node n, and nobody's server but m. */
  ghost predicate JoinsOnly(g: Config, s: Net, t: Net, n: nat, k: nat, m: nat) {
    && n < |s.nodes| && k < MAX_CLIENTS && m < |g.ids| && m < |s.hosts| == |t.hosts|
    && t.nodes == s.nodes[n := Identified(s.nodes[n], k, g.ids[m])] && t.serial == s.serial
    && forall i | 0 <= i < |s.hosts| && i != m :: t.hosts[i] == s.hosts[i]
  }

  /** The client has called and waits for its ID on the last connection, which is the server's next. */
  ghost predicate Heard(g: Config, s: Net, d: Net, n: nat, k: nat, m: nat) {
    && |g.files| == |g.ids| && Sized(g, d) && n < |s.nodes| && n < |g.ids| && k < MAX_CLIENTS && m < |g.ids|
    && m < |s.hosts| == |d.hosts| && d.serial == s.serial && |d.conns| == |s.conns| + 1
    && Waits(g, d.conns[|s.conns|], m) && d.conns[|s.conns|].back == 0
    && NextWaiting(d.conns, m, 0) == |s.conns| && Willing(d.hosts[m].srv) && LinkOf(d, n, k) == Some(|s.conns|)
    && d.nodes == CalledNet(g, s, n, k, m).nodes
    && (forall i | 0 <= i < |s.hosts| && i != m :: d.hosts[i] == s.hosts[i])
  }

  lemma AttemptIsHeard(g: Config, s0: Net, s: Net, n: nat, k: nat, m: nat) returns (d: Net)
    requires ConfigOk(g) && Inv(g, s0) && From(g, s0, s) && Calls(g, s, n, k, m) && m < |s.hosts|
    requires !s.hosts[m].srv.stopped && Room.Lost(s.hosts[m].srv) < MAX_CLIENTS
    ensures From(g, s0, d) && Heard(g, s, d, n, k, m)
    ensures Room.Lost(d.hosts[m].srv) == Room.Lost(s.hosts[m].srv)
  {
    FromInv(g, s0, s);
    ClientCalls(g, s0, s, n, k, m);
    var a := CalledNet(g, s, n, k, m);
    var b := ServerRecoversHere(g, s0, a, m);
    d := CalledIsHeard(g, s0, s, a, b, n, k, m);
  }

  lemma CalledIsHeard(g: Config, s0: Net, s: Net, a: Net, b: Net, n: nat, k: nat, m: nat) returns (d: Net)
    requires ConfigOk(g) && Inv(g, s0) && Sized(g, s) && Calls(g, s, n, k, m) && m < |s.hosts|
    requires a == CalledNet(g, s, n, k, m) && From(g, s0, b) && Beside(a, b, m) && SameWaiting(a, b)
    requires Willing(b.hosts[m].srv)
    ensures From(g, s0, d) && Heard(g, s, d, n, k, m)
    ensures Room.Lost(d.hosts[m].srv) == Room.Lost(b.hosts[m].srv) && Room.SamePool(b.hosts[m].srv, d.hosts[m].srv)
  {
    d := QueueDrains(g, s0, b, m, |s.conns|);
    FromInv(g, s0, d);
    StillWaits(g, a, b, d, m, |s.conns|);
    BesideIsHeard(g, s, b, d, n, k, m);
  }

  lemma BesideIsHeard(g: Config, s: Net, b: Net, d: Net, n: nat, k: nat, m: nat)
    requires |g.files| == |g.ids| && Sized(g, s) && Calls(g, s, n, k, m) && m < |s.hosts|
    requires Beside(CalledNet(g, s, n, k, m), b, m) && Beside(b, d, m)
    requires Waits(g, d.conns[|s.conns|], m) && d.conns[|s.conns|].back == 0
    requires NextWaiting(d.conns, m, 0) == |s.conns| && Willing(d.hosts[m].srv)
    ensures Heard(g, s, d, n, k, m)
  {
  }

  lemma AttemptCompletes(g: Config, s0: Net, s: Net, n: nat, k: nat, m: nat) returns (t: Net)
    requires ConfigOk(g) && Inv(g, s0) && From(g, s0, s) && Calls(g, s, n, k, m) && m < |s.hosts|
    requires !s.hosts[m].srv.stopped && Room.Lost(s.hosts[m].srv) < MAX_CLIENTS
    ensures From(g, s0, t) && m < |t.hosts| && !t.hosts[m].srv.stopped && Completed(g, s, t, n, k, m)
    ensures JoinsOnly(g, s, t, n, k, m) && Room.Lost(t.hosts[m].srv) <= Room.Lost(s.hosts[m].srv) + 1
  {
    var d := AttemptIsHeard(g, s0, s, n, k, m);
    FromInv(g, s0, d);
    JoinedAreIssued(g, d, m);
    t := HeardIsAnswered(g, s0, s, d, n, k, m);
  }

  lemma HeardIsAnswered(g: Config, s0: Net, s: Net, d: Net, n: nat, k: nat, m: nat) returns (t: Net)
    requires From(g, s0, d) && Heard(g, s, d, n, k, m) && |d.hosts[m].joined| == d.hosts[m].srv.issued
    ensures From(g, s0, t) && m < |t.hosts| && !t.hosts[m].srv.stopped && Completed(g, s, t, n, k, m)
    ensures JoinsOnly(g, s, t, n, k, m) && Room.Lost(t.hosts[m].srv) <= Room.Lost(d.hosts[m].srv) + 1
  {
    var c := |s.conns|;
    ServerMeets(g, s0, d, m, c);
    var e := MetNet(g, d, m, c);
    ClientIsAnswered(g, s0, e, n, k, c);
    t := e.(nodes := e.nodes[n := Identified(e.nodes[n], k, g.ids[m])], conns := e.conns[c := e.conns[c].(back := 1)]);
    IdentifiedIsJoined(g, s, n, k, m);
  }

  lemma IdentifiedIsJoined(g: Config, s: Net, n: nat, k: nat, m: nat)
    requires n < |s.nodes| && n < |g.ids| && k < MAX_CLIENTS && m < |g.ids|
    ensures var nodes := CalledNet(g, s, n, k, m).nodes;
            nodes[n := Identified(nodes[n], k, g.ids[m])] == s.nodes[n := Identified(s.nodes[n], k, g.ids[m])]
  {
    var node := CalledNet(g, s, n, k, m).nodes[n];
    assert Identified(node, k, g.ids[m]).pool == Identified(s.nodes[n], k, g.ids[m]).pool;
  }

  lemma StillWaits(g: Config, a: Net, b: Net, d: Net, m: nat, c: nat)
    requires |g.files| == |g.ids| && Inv(g, d) && Beside(a, b, m) && SameWaiting(a, b)
    requires c < |a.conns| == |d.conns| && Waits(g, a.conns[c], m) && d.conns[c] == b.conns[c]
    ensures Waits(g, d.conns[c], m) && d.conns[c].back == a.conns[c].back
  {
    assert SameForClient(a.conns[c], b.conns[c]);
    assert ConnInv(g, d.orders, d.conns[c]);
  }

  // ---- with a reader for it ----

  /** The server once it has met the client of connection c. */
  ghost function MetHost(g: Config, d: Net, m: nat, c: nat): Host
    requires m < |d.hosts| && c < |d.conns| && d.conns[c].client < |g.ids|
    requires FirstClosed(d.hosts[m].srv.server.slots, 0) < MAX_CLIENTS
  {
    Host(HasMet(d.hosts[m].srv, g.ids[d.conns[c].client]), d.hosts[m].joined + [c], d.hosts[m].held)
  }

  lemma HeardIsMet(g: Config, s0: Net, s: Net, d: Net, n: nat, k: nat, m: nat) returns (e: Net)
    requires From(g, s0, d) && Heard(g, s, d, n, k, m) && |d.hosts[m].joined| == d.hosts[m].srv.issued
    ensures From(g, s0, e) && AwaitsId(g, e, n, k, |s.conns|) && e.conns[|s.conns|].server == m
    ensures m < |e.hosts| == |d.hosts| && e.hosts[m] == MetHost(g, d, m, |s.conns|)
    ensures e.nodes == d.nodes && e.serial == d.serial
    ensures forall i | 0 <= i < |e.hosts| && i != m :: e.hosts[i] == d.hosts[i]
  {
    var c := |s.conns|;
    ServerMeets(g, s0, d, m, c);
    e := MetNet(g, d, m, c);
  }

  lemma IdIsReceived(g: Config, s0: Net, s: Net, f: Net, n: nat, k: nat, m: nat) returns (t: Net)
    requires From(g, s0, f) && AwaitsId(g, f, n, k, |s.conns|) && f.conns[|s.conns|].server == m
    ensures From(g, s0, t) && t.hosts == f.hosts && Completed(g, s, t, n, k, m) && t.serial == f.serial
    ensures t.nodes == f.nodes[n := Identified(f.nodes[n], k, g.ids[m])]
  {
    var c := |s.conns|;
    ClientIsAnswered(g, s0, f, n, k, c);
    t := f.(nodes := f.nodes[n := Identified(f.nodes[n], k, g.ids[m])], conns := f.conns[c := f.conns[c].(back := 1)]);
  }

  lemma MetThenStarted(v: Srv.State, id: U32)
    requires FirstClosed(v.server.slots, 0) < MAX_CLIENTS && TasksFit(v.tasks) && |v.threads| == MAX_TASKS
    requires FirstUnstarted(v.tasks.started, 0) < MAX_TASKS && v.accept.Top? && !v.stopped
    ensures Srv.CanDo(HasMet(v, id), Srv.StartReader)
    ensures Srv.Do(HasMet(v, id), Srv.StartReader) == Paths.Welcomed(v, id)
  {
  }

  lemma WelcomedReads(h: Host, id: U32, c: nat, h': Host) returns (j: nat)
    requires FirstClosed(h.srv.server.slots, 0) < MAX_CLIENTS && TasksFit(h.srv.tasks) && |h.srv.threads| == MAX_TASKS
    requires FirstUnstarted(h.srv.tasks.started, 0) < MAX_TASKS && |h.joined| == h.srv.issued
    requires h' == Host(Paths.Welcomed(h.srv, id), h.joined + [c], h.held)
    ensures IsOwn(h', j, c) && h'.srv.threads[j].pc.Looping? && SeatOf(h', h'.srv.threads[j].k) == Some(c)
  {
    j := FirstUnstarted(h.srv.tasks.started, 0);
  }

  /** The client has been heard by a server that has a pool entry left: the connection gets a reader of its own. */
  lemma HeardIsRead(g: Config, s0: Net, s: Net, d: Net, n: nat, k: nat, m: nat) returns (t: Net, j: nat)
    requires From(g, s0, d) && Heard(g, s, d, n, k, m) && |d.hosts[m].joined| == d.hosts[m].srv.issued
    requires FirstUnstarted(d.hosts[m].srv.tasks.started, 0) < MAX_TASKS
    ensures From(g, s0, t) && m < |t.hosts| && !t.hosts[m].srv.stopped && Completed(g, s, t, n, k, m)
    ensures IsOwn(t.hosts[m], j, |s.conns|) && t.hosts[m].srv.threads[j].pc.Looping?
    ensures SeatOf(t.hosts[m], t.hosts[m].srv.threads[j].k) == Some(|s.conns|)
  {
    var e := HeardIsMet(g, s0, s, d, n, k, m);
    var id := g.ids[d.conns[|s.conns|].client];
    MetThenStarted(d.hosts[m].srv, id);
    var f := OwnStepLifts(g, s0, e, m, Srv.StartReader);
    t := IdIsReceived(g, s0, s, f, n, k, m);
    j := WelcomedReads(d.hosts[m], id, |s.conns|, t.hosts[m]);
  }

  /** If moreover the server's accept task is at the top of its loop and has a pool entry left, or has to look for one
      before it accepts, the attempt can go through to a connection with a reader of its own. */
  lemma AttemptCompletesRead(g: Config, s: Net, n: nat, k: nat, m: nat) returns (t: Net, j: nat)
    requires ConfigOk(g) && Reachable(g, s) && Calls(g, s, n, k, m) && m < |s.hosts| && !s.hosts[m].srv.stopped
    requires Room.Lost(s.hosts[m].srv) < MAX_CLIENTS && Room.EntryToCome(s.hosts[m].srv)
    ensures From(g, s, t) && m < |t.hosts| && !t.hosts[m].srv.stopped && Completed(g, s, t, n, k, m)
    ensures IsOwn(t.hosts[m], j, |s.conns|) && t.hosts[m].srv.threads[j].pc.Looping?
    ensures SeatOf(t.hosts[m], t.hosts[m].srv.threads[j].k) == Some(|s.conns|)
  {
    ReachableInv(g, s);
    ReachesItself(Step(g), s);
    ClientCalls(g, s, s, n, k, m);
    var a := CalledNet(g, s, n, k, m);
    var b := ServerRecoversWithEntryHere(g, s, a, m);
    var d := CalledIsHeard(g, s, s, a, b, n, k, m);
    FromInv(g, s, d);
    JoinedAreIssued(g, d, m);
    t, j := HeardIsRead(g, s, s, d, n, k, m);
  }

  // ---- again and again ----

  /** Server m can still lose a place and is not exhausted: such a server can go on for ever. */
  ghost predicate Lasting(s: Net, m: nat) {
    && m < |s.hosts| && !s.hosts[m].srv.stopped
    && Room.Lost(s.hosts[m].srv) < MAX_CLIENTS && !Room.Exhausted(s.hosts[m].srv)
  }

  lemma WelcomedLasts(v: Srv.State, id: U32)
    requires FirstClosed(v.server.slots, 0) < MAX_CLIENTS && TasksFit(v.tasks) && |v.threads| == MAX_TASKS
    requires FirstUnstarted(v.tasks.started, 0) < MAX_TASKS && v.accept.Top?
    ensures var w := Paths.Welcomed(v, id);
            !Room.Exhausted(w) && Room.Lost(w) == Room.Lost(v) && w.stopped == v.stopped
  {
    assert Paths.Welcomed(v, id).threads[FirstUnstarted(v.tasks.started, 0)].Running?;
  }

  lemma MetLasts(v: Srv.State, id: U32)
    requires FirstClosed(v.server.slots, 0) < MAX_CLIENTS && Srv.Live(v.threads) != {} && v.accept.Top?
    ensures var w := HasMet(v, id);
            !Room.Exhausted(w) && Room.Lost(w) <= Room.Lost(v) + 1 && w.stopped == v.stopped
  {
    var j :| j in Srv.Live(v.threads);
    assert HasMet(v, id).threads[j].Running?;
  }

  /** A client that has been heard by a renewed server joins it, and the server lasts. */
  lemma HeardLasts(g: Config, s0: Net, s: Net, d: Net, n: nat, k: nat, m: nat) returns (t: Net)
    requires From(g, s0, d) && Heard(g, s, d, n, k, m) && |d.hosts[m].joined| == d.hosts[m].srv.issued
    requires Room.Renewed(d.hosts[m].srv) && Room.Lost(d.hosts[m].srv) < MAX_CLIENTS
    ensures From(g, s0, t) && JoinsOnly(g, s, t, n, k, m) && Lasting(t, m)
  {
    var e := HeardIsMet(g, s0, s, d, n, k, m);
    var id := g.ids[d.conns[|s.conns|].client];
    if FirstUnstarted(d.hosts[m].srv.tasks.started, 0) < MAX_TASKS {
      MetThenStarted(d.hosts[m].srv, id);
      WelcomedLasts(d.hosts[m].srv, id);
      var f := OwnStepLifts(g, s0, e, m, Srv.StartReader);
      t := IdIsReceived(g, s0, s, f, n, k, m);
    } else {
      MetLasts(d.hosts[m].srv, id);
      t := IdIsReceived(g, s0, s, e, n, k, m);
    }
    IdentifiedIsJoined(g, s, n, k, m);
  }

  lemma AttemptLasts(g: Config, s0: Net, s: Net, n: nat, k: nat, m: nat) returns (t: Net)
    requires ConfigOk(g) && Inv(g, s0) && From(g, s0, s) && Calls(g, s, n, k, m) && Lasting(s, m)
    ensures From(g, s0, t) && JoinsOnly(g, s, t, n, k, m) && Lasting(t, m)
  {
    FromInv(g, s0, s);
    ClientCalls(g, s0, s, n, k, m);
    var a := CalledNet(g, s, n, k, m);
    var b := ServerRenewsHere(g, s0, a, m);
    var d := CalledIsHeard(g, s0, s, a, b, n, k, m);
    FromInv(g, s0, d);
    JoinedAreIssued(g, d, m);
    t := HeardLasts(g, s0, s, d, n, k, m);
  }

  // ---- the attempt cannot go through ----

  /** Server m has been stopped, or has lost all of its places and accepted nobody since s. */
  ghost predicate Barred(s: Net, x: Net, m: nat) {
    && m < |s.hosts| && m < |x.hosts|
    && (x.hosts[m].srv.stopped || (Room.Lost(x.hosts[m].srv) >= MAX_CLIENTS && x.hosts[m].joined == s.hosts[m].joined))
  }

  /** What a step of server m is to its accept task and readers. */
  ghost function ServerAction(x: Net, a: Action): Srv.Action
    requires OfServer(a) && a.m < |x.hosts|
    requires a.TakeIdOn? ==> CanTakeId(x.hosts[a.m], x.conns, a.junk)
  {
    match a
    case Serve(_, own) => own
    case AcceptOn(_) => Srv.Accept(true, true)
    case TakeIdOn(m, junk) =>
      Srv.RecvClientId(Some(IdBytes(x.conns[SeatOf(x.hosts[m], x.hosts[m].srv.accept.k).value], junk)))
    case AnswerOn(_, sent, _) => Srv.SendServerId(sent)
    case TakeOn(_, j) => Srv.Receive(j, true)
    case HandOverOn(_, j) => Srv.HandUp(j)
    case _ => Srv.Guard
  }

  lemma ServerActionDone(g: Config, x: Net, a: Action)
    requires CanDo(g, x, a) && OfServer(a)
    ensures a.m < |Do(g, x, a).hosts| && Srv.CanDo(x.hosts[a.m].srv, ServerAction(x, a))
    ensures Do(g, x, a).hosts[a.m].srv == Srv.Do(x.hosts[a.m].srv, ServerAction(x, a))
    ensures Do(g, x, a).hosts[a.m].joined
            == if a.AcceptOn? then x.hosts[a.m].joined + [NextWaiting(x.conns, a.m, 0)] else x.hosts[a.m].joined
  {
  }

  lemma OthersLeaveHost(g: Config, x: Net, m: nat, a: Action)
    requires m < |x.hosts| && CanDo(g, x, a) && !(OfServer(a) && a.m == m)
    ensures m < |Do(g, x, a).hosts| && Do(g, x, a).hosts[m] == x.hosts[m]
  {
  }

  lemma StepStaysBarred(g: Config, s: Net, x: Net, m: nat, a: Action)
    requires Barred(s, x, m) && Srv.Inv(x.hosts[m].srv) && CanDo(g, x, a)
    ensures Barred(s, Do(g, x, a), m)
  {
    if OfServer(a) && a.m == m {
      ServerStaysBarred(g, s, x, m, a);
    } else {
      OthersLeaveHost(g, x, m, a);
    }
  }

  lemma ServerStaysBarred(g: Config, s: Net, x: Net, m: nat, a: Action)
    requires Barred(s, x, m) && CanDo(g, x, a) && OfServer(a) && a.m == m
    requires Srv.Inv(x.hosts[m].srv)
    ensures Barred(s, Do(g, x, a), m)
  {
    var v := x.hosts[m].srv;
    var b := ServerAction(x, a);
    ServerActionDone(g, x, a);
    if !v.stopped && !b.Stop? {
      Room.StepKeepsLost(v, b);
      AllLostAcceptsNobody(v);
    }
  }

  lemma AllLostAcceptsNobody(v: Srv.State)
    requires Srv.Inv(v) && !v.stopped && Room.Lost(v) >= MAX_CLIENTS
    ensures !v.accept.Guarded?
  {
  }

  lemma StaysBarred(g: Config, s: Net, t: Net, m: nat)
    requires ConfigOk(g) && Inv(g, s) && From(g, s, t) && Barred(s, s, m)
    ensures Inv(g, t) && Barred(s, t, m)
  {
    var inv := (x: Net) => Inv(g, x) && Barred(s, x, m);
    forall x: Net, a | inv(x) && Step(g)(x, a).Some?
      ensures inv(Step(g)(x, a).value)
    {
      StepKeepsInv(g, x, a);
      assert HostOk(m, x.hosts[m], x.conns);
      StepStaysBarred(g, s, x, m, a);
    }
    InvariantHolds(Step(g), inv, s, t);
  }

  /** A connection that server m was to complete is among those it accepted. */
  lemma CompletedIsJoined(g: Config, s: Net, t: Net, n: nat, k: nat, m: nat)
    requires ConfigOk(g) && Inv(g, t) && m < |t.hosts| && Completed(g, s, t, n, k, m)
    ensures LinkOf(t, n, k).value in t.hosts[m].joined
  {
    assert SlotInv(g, t, n, k) && ConnInv(g, t.orders, t.conns[LinkOf(t, n, k).value]);
    assert HostOk(m, t.hosts[m], t.conns);
  }

  lemma JoinedAreOld(g: Config, s: Net, m: nat)
    requires |g.files| == |g.ids| && Inv(g, s) && m < |s.hosts|
    ensures forall c | c in s.hosts[m].joined :: c < |s.conns|
  {
    assert HostOk(m, s.hosts[m], s.conns);
  }

  lemma BarredForGood(g: Config, s: Net, t: Net, n: nat, k: nat, m: nat)
    requires ConfigOk(g) && Inv(g, s) && m < |s.hosts| && !s.hosts[m].srv.stopped
    requires Room.Lost(s.hosts[m].srv) >= MAX_CLIENTS
    requires From(g, s, t) && m < |t.hosts| && !t.hosts[m].srv.stopped
    ensures !Completed(g, s, t, n, k, m)
  {
    JoinedAreOld(g, s, m);
    StaysBarred(g, s, t, m);
    if Completed(g, s, t, n, k, m) {
      CompletedIsJoined(g, s, t, n, k, m);
    }
  }

  /** A connection attempt at server m can go through before m is stopped exactly as long as m's lost places, counting
      the one that is about to be lost, are fewer than MAX_CLIENTS. */
  lemma AttemptCompletesIff(g: Config, s: Net, n: nat, k: nat, m: nat)
    requires ConfigOk(g) && Reachable(g, s) && Calls(g, s, n, k, m) && m < |s.hosts| && !s.hosts[m].srv.stopped
    ensures (exists t :: From(g, s, t) && m < |t.hosts| && !t.hosts[m].srv.stopped && Completed(g, s, t, n, k, m))
            <==> Room.Lost(s.hosts[m].srv) < MAX_CLIENTS
  {
    ReachableInv(g, s);
    if Room.Lost(s.hosts[m].srv) < MAX_CLIENTS {
      ReachesItself(Step(g), s);
      var t := AttemptCompletes(g, s, s, n, k, m);
    } else {
      forall t | From(g, s, t) && m < |t.hosts| && !t.hosts[m].srv.stopped
        ensures !Completed(g, s, t, n, k, m)
      {
        BarredForGood(g, s, t, n, k, m);
      }
    }
  }
}
