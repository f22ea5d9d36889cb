/** Exactly when a payload for a connected node can still arrive there. */
module Arrival {
  import opened SwarmTypes
  import opened Codec
  import opened RoutingScan
  import opened Hosts
  import opened Network
  import opened NetworkSafety
  import opened Joining
  import opened Completion
  import opened Transitions
  import Pool = ClientPool
  import Servers = ServerPool
  import Runs = ClientRuns
  import Srv = ServerRuns

  // ---- who reads a connection ----

  /** Reader j is on slot k and in its loop, not having failed. */
  predicate ReadsSlot(v: Srv.State, j: nat, k: nat) {
    && j < |v.threads| && v.threads[j].Running? && v.threads[j].k == k
    && (v.threads[j].pc.Looping? || v.threads[j].pc.Looked? || v.threads[j].pc.Receiving?
        || Srv.HandsOn(v.threads[j].pc))
  }

  /** Slot k has a reader, its own or a foreign one, or is about to get one. */
  ghost predicate Attended(v: Srv.State, k: nat) {
    || (exists j: nat :: ReadsSlot(v, j, k))
    || (v.accept == Srv.Ready(k) && Servers.FirstUnstarted(v.tasks.started, 0) < |v.tasks.started|)
  }

  /** Connection c is still on one of its server's slots, and that slot is attended. */
  ghost predicate Alive(s: Net, c: nat) {
    && c < |s.conns| && s.conns[c].server < |s.hosts|
    && var h := s.hosts[s.conns[c].server];
    && exists k: nat :: SeatOf(h, k) == Some(c) && Attended(h.srv, k)
  }

  // ---- the sender's half ----

  /** Node n puts the payload on the connection of the slot its lookup ends at. */
  ghost function SentNet(g: Config, s: Net, n: nat, dest: U32, payload: seq<byte>, msg: seq<byte>): Net
    requires n < |s.nodes| && n < |s.serial|
  {
    s.(orders := s.orders + [Order(n, dest, payload)], serial := s.serial[n := |s.orders|],
       conns := Put(s, n, Pool.LookUp(s.nodes[n].pool, dest), msg, Some(|s.orders|), true))
  }

  /** Node n may be asked to send: it is not sending, and the receiver is connected. */
  ghost predicate CanSend(g: Config, s: Net, n: nat, dest: U32) {
    && |g.files| == |g.ids| && Sized(g, s) && n < |g.ids|
    && s.nodes[n].sending.NoSend? && dest != 0 && dest != BROADCAST && Pool.ConnectedToId(s.nodes[n].pool, dest)
  }

  function AtSender(s: Net, n: nat, sending: Runs.SendPc): Net
    requires n < |s.nodes|
  {
    s.(nodes := s.nodes[n := s.nodes[n].(sending := sending)])
  }

  /** The order taken and its receiver found. */
  lemma OrderTaken(g: Config, s0: Net, s: Net, n: nat, dest: U32, payload: seq<byte>, pre: seq<byte>, post: seq<byte>)
    requires From(g, s0, s) && CanSend(g, s, n, dest) && Runs.SlotOk(s.nodes[n].opening) && NoTag(Encode(g.ids[n]))
    requires |pre| == g.preSize && |post| == g.postSize && NoTag(pre) && |payload| + 12 < 0x1_0000_0000
    ensures var msg := Wrapped(pre, g.ids[n], dest, payload, post);
            From(g, s0, AtSender(s, n, Runs.Routing(msg, dest)).(orders := s.orders + [Order(n, dest, payload)],
                                                                 serial := s.serial[n := |s.orders|]))
  {
    var behind: seq<byte> := seq(6, _ => 0);
    RouteFramed(pre, g.ids[n], dest, payload, post, behind);
    Go(g, s0, s, Handle(n, dest, payload, pre, post, behind));
  }

  /** The mask and the lookup let a connected receiver through, and the send succeeds. */
  lemma OrderSent(g: Config, s0: Net, s: Net, n: nat, dest: U32, msg: seq<byte>)
    requires |g.files| == |g.ids| && Sized(g, s) && n < |g.ids| && Runs.SlotOk(s.nodes[n].opening)
    requires dest != 0 && dest != BROADCAST && Pool.ConnectedToId(s.nodes[n].pool, dest)
    requires s.nodes[n].sending.NoSend? && From(g, s0, AtSender(s, n, Runs.Routing(msg, dest)))
    ensures From(g, s0, s.(conns := Put(s, n, Pool.LookUp(s.nodes[n].pool, dest), msg, Some(s.serial[n]), true)))
  {
    var a := AtSender(s, n, Runs.Routing(msg, dest));
    Go(g, s0, a, Local(n, Runs.AskMask(true)));
    var b := NodeDid(g, a, n, Runs.AskMask(true));
    assert b == AtSender(s, n, Runs.LookingUp(msg, dest));
    Go(g, s0, b, Local(n, Runs.CheckId));
    var d := NodeDid(g, b, n, Runs.CheckId);
    assert d == AtSender(s, n, Runs.Transmitting(msg, dest));
    OrderTransmitted(g, s0, s, n, dest, msg);
  }

  lemma OrderTransmitted(g: Config, s0: Net, s: Net, n: nat, dest: U32, msg: seq<byte>)
    requires |g.files| == |g.ids| && Sized(g, s) && n < |g.ids| && Runs.SlotOk(s.nodes[n].opening)
    requires s.nodes[n].sending.NoSend? && From(g, s0, AtSender(s, n, Runs.Transmitting(msg, dest)))
    ensures From(g, s0, s.(conns := Put(s, n, Pool.LookUp(s.nodes[n].pool, dest), msg, Some(s.serial[n]), true)))
  {
    var d := AtSender(s, n, Runs.Transmitting(msg, dest));
    Go(g, s0, d, TransmitOn(n, Success, false, true));
    var t := Transmitted(g, d, n, Success, false, true);
    assert t.nodes == s.nodes;
  }

  /** The send itself, up to the stream. */
  lemma UnicastSent(g: Config, s0: Net, s: Net, n: nat, dest: U32, payload: seq<byte>, pre: seq<byte>, post: seq<byte>)
    requires From(g, s0, s) && CanSend(g, s, n, dest) && Runs.SlotOk(s.nodes[n].opening) && NoTag(Encode(g.ids[n]))
    requires |pre| == g.preSize && |post| == g.postSize && NoTag(pre) && |payload| + 12 < 0x1_0000_0000
    ensures From(g, s0, SentNet(g, s, n, dest, payload, Wrapped(pre, g.ids[n], dest, payload, post)))
  {
    var msg := Wrapped(pre, g.ids[n], dest, payload, post);
    OrderTaken(g, s0, s, n, dest, payload, pre, post);
    var t := s.(orders := s.orders + [Order(n, dest, payload)], serial := s.serial[n := |s.orders|]);
    assert AtSender(t, n, Runs.Routing(msg, dest))
        == AtSender(s, n, Runs.Routing(msg, dest)).(orders := t.orders, serial := t.serial);
    OrderSent(g, s0, t, n, dest, msg);
  }

  // ---- the reader's half ----

  /** A reader of slot k, which is on connection c, before the stop. */
  ghost predicate Serves(s: Net, m: nat, j: nat, k: nat, c: nat) {
    && m < |s.hosts| && c < |s.conns| && k < MAX_CLIENTS
    && var v := s.hosts[m].srv;
    && Servers.TasksFit(v.tasks) && |v.threads| == MAX_TASKS && !v.stopped
    && ReadsSlot(v, j, k) && SeatOf(s.hosts[m], k) == Some(c)
  }

  /** What a reader's steps leave of connection c: everything the client put on it. */
  ghost predicate OnlyHandsUp(s: Net, t: Net, c: nat) {
    && t == s.(hosts := t.hosts, conns := t.conns) && |t.conns| == |s.conns| && c < |s.conns|
    && t.conns[c].up == s.conns[c].up && t.conns[c].tags == s.conns[c].tags
    && t.conns[c].server == s.conns[c].server && s.conns[c].handed <= t.conns[c].handed
  }

  /** Of server m, only where reader j stands and what it holds has changed. */
  ghost predicate OnlyReader(s: Net, t: Net, m: nat, j: nat) {
    && m < |s.hosts| && m < |t.hosts| && j < |s.hosts[m].srv.threads| && j < |t.hosts[m].srv.threads|
    && var (h, h') := (s.hosts[m], t.hosts[m]);
    && h'.srv == h.srv.(threads := h.srv.threads[j := h'.srv.threads[j]]) && h'.joined == h.joined
    && h'.held - {j} == h.held - {j}
  }

  /** A step the reader takes by itself. */
  lemma ReaderSteps(g: Config, s0: Net, s: Net, m: nat, j: nat, k: nat, c: nat, a: Srv.Action) returns (t: Net)
    requires From(g, s0, s) && Serves(s, m, j, k, c) && Srv.CanDo(s.hosts[m].srv, a) && OfItsOwn(s.hosts[m], a)
    requires a == Srv.Look(j) || a == Srv.LookAgain(j, true) || a == Srv.HandUp(j)
    ensures From(g, s0, t) && t.conns == s.conns && OnlyHandsUp(s, t, c) && Serves(t, m, j, k, c)
    ensures t.hosts[m] == s.hosts[m].(srv := Srv.Do(s.hosts[m].srv, a)) && OnlyReader(s, t, m, j)
  {
    Go(g, s0, s, Serve(m, a));
    t := Served(s, m, a);
  }

  /** The reader hands up what it holds. */
  lemma ReaderHandsUp(g: Config, s0: Net, s: Net, m: nat, j: nat, k: nat, c: nat) returns (t: Net)
    requires From(g, s0, s) && Serves(s, m, j, k, c) && Srv.HandsOn(s.hosts[m].srv.threads[j].pc)
    requires j in s.hosts[m].held ==> s.hosts[m].held[j].c < |s.conns|
    ensures From(g, s0, t) && OnlyHandsUp(s, t, c) && Serves(t, m, j, k, c) && OnlyReader(s, t, m, j)
    ensures t.hosts[m].srv.threads[j].pc.Looping? && j !in t.hosts[m].held
    ensures t.conns[c].taken == s.conns[c].taken
    ensures j in s.hosts[m].held && s.hosts[m].held[j].c == c ==> s.hosts[m].held[j].i in t.conns[c].handed
  {
    if j in s.hosts[m].held {
      Go(g, s0, s, HandOverOn(m, j));
      t := HasHandedOver(s, m, j);
      if s.hosts[m].held[j].c == c {
        assert t.conns[c].handed[|s.conns[c].handed|] == s.hosts[m].held[j].i;
      }
    } else {
      t := ReaderSteps(g, s0, s, m, j, k, c, Srv.HandUp(j));
    }
  }

  /** The reader gets to its next receive. */
  lemma ReaderLooks(g: Config, s0: Net, s: Net, m: nat, j: nat, k: nat, c: nat) returns (t: Net)
    requires From(g, s0, s) && Serves(s, m, j, k, c) && !Srv.HandsOn(s.hosts[m].srv.threads[j].pc)
    ensures From(g, s0, t) && OnlyHandsUp(s, t, c) && Serves(t, m, j, k, c) && t.conns == s.conns
    ensures t.hosts[m].srv.threads[j].pc.Receiving? && OnlyReader(s, t, m, j)
  {
    t := s;
    if t.hosts[m].srv.threads[j].pc.Looping? {
      t := ReaderSteps(g, s0, t, m, j, k, c, Srv.Look(j));
    }
    if t.hosts[m].srv.threads[j].pc.Looked? {
      t := ReaderSteps(g, s0, t, m, j, k, c, Srv.LookAgain(j, true));
    }
  }

  /** The reader receives the next message of the connection. */
  lemma ReaderTakes(g: Config, s0: Net, s: Net, m: nat, j: nat, k: nat, c: nat) returns (t: Net)
    requires From(g, s0, s) && Serves(s, m, j, k, c) && s.hosts[m].srv.threads[j].pc.Receiving?
    requires s.conns[c].taken < |s.conns[c].up|
    ensures From(g, s0, t) && OnlyHandsUp(s, t, c) && Serves(t, m, j, k, c) && OnlyReader(s, t, m, j)
    ensures t.conns[c].taken == s.conns[c].taken + 1
    ensures t.hosts[m].srv.threads[j].pc == Srv.HandingUp(true, false)
    ensures j in t.hosts[m].held && t.hosts[m].held[j] == Message(c, s.conns[c].taken)
  {
    Go(g, s0, s, TakeOn(m, j));
    t := HasTaken(s, m, j);
  }

  /** The next message of the connection is taken and handed up. */
  lemma ReaderTakesOne(g: Config, s0: Net, s: Net, m: nat, j: nat, k: nat, c: nat) returns (t: Net)
    requires From(g, s0, s) && Serves(s, m, j, k, c) && s.conns[c].taken < |s.conns[c].up|
    requires j in s.hosts[m].held ==> s.hosts[m].held[j].c < |s.conns|
    ensures From(g, s0, t) && OnlyHandsUp(s, t, c) && Serves(t, m, j, k, c) && j !in t.hosts[m].held
    ensures t.conns[c].taken == s.conns[c].taken + 1 && s.conns[c].taken in t.conns[c].handed
  {
    t := s;
    if Srv.HandsOn(t.hosts[m].srv.threads[j].pc) {
      t := ReaderHandsUp(g, s0, t, m, j, k, c);
    }
    t := ReaderLooks(g, s0, t, m, j, k, c);
    t := ReaderTakes(g, s0, t, m, j, k, c);
    t := ReaderHandsUp(g, s0, t, m, j, k, c);
  }

  /** The reader goes on to the end of the stream, which is `left` messages away. */
  lemma {:induction false} ReaderDrains(g: Config, s0: Net, s: Net, m: nat, j: nat, k: nat, c: nat, left: nat)
    returns (t: Net)
    requires From(g, s0, s) && Serves(s, m, j, k, c) && left > 0 && s.conns[c].taken + left == |s.conns[c].up|
    requires j in s.hosts[m].held ==> s.hosts[m].held[j].c < |s.conns|
    ensures From(g, s0, t) && OnlyHandsUp(s, t, c) && |s.conns[c].up| - 1 in t.conns[c].handed
    decreases left
  {
    var u := ReaderTakesOne(g, s0, s, m, j, k, c);
    if left == 1 {
      t := u;
    } else {
      t := ReaderDrains(g, s0, u, m, j, k, c, left - 1);
      HandsUpOn(s, u, t, c);
    }
  }

  lemma HandsUpOn(s: Net, t: Net, u: Net, c: nat)
    requires OnlyHandsUp(s, t, c) && OnlyHandsUp(t, u, c)
    ensures OnlyHandsUp(s, u, c)
  {
  }

  /** An attended connection has a reader, or gets one. */
  lemma ReaderIsThere(g: Config, s0: Net, s: Net, m: nat, k: nat, c: nat) returns (t: Net, j: nat)
    requires From(g, s0, s) && m < |s.hosts| && c < |s.conns| && k < MAX_CLIENTS
    requires Servers.TasksFit(s.hosts[m].srv.tasks) && |s.hosts[m].srv.threads| == MAX_TASKS && !s.hosts[m].srv.stopped
    requires SeatOf(s.hosts[m], k) == Some(c) && Attended(s.hosts[m].srv, k)
    ensures From(g, s0, t) && OnlyHandsUp(s, t, c) && Serves(t, m, j, k, c) && t.conns == s.conns
    ensures t.hosts[m].held == s.hosts[m].held
  {
    if i: nat :| ReadsSlot(s.hosts[m].srv, i, k) {
      t, j := s, i;
    } else {
      Go(g, s0, s, Serve(m, Srv.StartReader));
      t := Served(s, m, Srv.StartReader);
      j := Servers.FirstUnstarted(s.hosts[m].srv.tasks.started, 0);
    }
  }

  // ---- arrival ----

  /** The order with this tag was handed up from connection c. */
  ghost predicate Arrived(t: Net, c: nat, tag: nat) {
    && c < |t.conns|
    && exists a :: 0 <= a < |t.conns[c].handed| && 1 <= t.conns[c].handed[a] <= |t.conns[c].tags|
                   && t.conns[c].tags[t.conns[c].handed[a] - 1] == tag
  }

  /** A message put last on an attended connection can be handed up. */
  lemma LastArrives(g: Config, s0: Net, s: Net, c: nat) returns (t: Net)
    requires ConfigOk(g) && Inv(g, s0) && From(g, s0, s) && Alive(s, c) && !s.hosts[s.conns[c].server].srv.stopped
    requires s.conns[c].tags != [] && |s.conns[c].up| == |s.conns[c].tags| + 1 && s.conns[c].taken < |s.conns[c].up|
    ensures From(g, s0, t) && t.orders == s.orders && Arrived(t, c, s.conns[c].tags[|s.conns[c].tags| - 1])
    ensures OnlyHandsUp(s, t, c)
  {
    FromInv(g, s0, s);
    var m := s.conns[c].server;
    assert HostOk(m, s.hosts[m], s.conns);
    var k: nat :| SeatOf(s.hosts[m], k) == Some(c) && Attended(s.hosts[m].srv, k);
    var u, j := ReaderIsThere(g, s0, s, m, k, c);
    HeldAreKnown(s, m, j);
    t := ReaderDrains(g, s0, u, m, j, k, c, |s.conns[c].up| - s.conns[c].taken);
    var i := |s.conns[c].up| - 1;
    var a :| 0 <= a < |t.conns[c].handed| && t.conns[c].handed[a] == i;
  }

  lemma HeldAreKnown(s: Net, m: nat, j: nat)
    requires m < |s.hosts| && HostOk(m, s.hosts[m], s.conns)
    ensures j in s.hosts[m].held ==> s.hosts[m].held[j].c < |s.conns|
  {
    assert HeldOk(m, s.hosts[m], s.conns, j);
  }

  /** The connection a unicast to a connected node goes to: identified on both ends. */
  lemma UnicastGoesTo(g: Config, s: Net, n: nat, dest: U32)
    requires ConfigOk(g) && Inv(g, s) && CanSend(g, s, n, dest)
    ensures var k := Pool.LookUp(s.nodes[n].pool, dest);
            && LinkOf(s, n, k).Some?
            && var conn := s.conns[LinkOf(s, n, k).value];
            && conn.server < |g.ids| && g.ids[conn.server] == dest && conn.client == n && conn.back == 1
    ensures Runs.SlotOk(s.nodes[n].opening)
  {
    assert Runs.Inv(s.nodes[n]);
    Pool.LookUpAgrees(s.nodes[n].pool, dest);
    assert SlotInv(g, s, n, Pool.LookUp(s.nodes[n].pool, dest));
  }

  lemma BackMeansRecorded(g: Config, s: Net, c: nat)
    requires |g.files| == |g.ids| && Inv(g, s) && c < |s.conns| && s.conns[c].back == 1
    ensures var conn := s.conns[c];
            && conn.accepted && conn.recorded.Some? && conn.down != [] && 1 <= conn.taken <= |conn.up|
            && |conn.up| == |conn.tags| + 1 && conn.server < |s.hosts|
            && forall i | 0 <= i < |conn.tags| :: conn.tags[i] < |s.orders|
  {
    assert ConnInv(g, s.orders, s.conns[c]);
    TagsAreOrders(g, s);
  }

  /** A payload for a connected node can arrive if the connection is attended: the network can get to a state in which
      the deframer there reports the sending node as the source of the very same bytes. */
  lemma UnicastArrives(g: Config, s: Net, n: nat, dest: U32, payload: seq<byte>, pre: seq<byte>, post: seq<byte>,
                       c: nat)
    returns (t: Net)
    requires ConfigOk(g) && Inv(g, s) && CanSend(g, s, n, dest)
    requires LinkOf(s, n, Pool.LookUp(s.nodes[n].pool, dest)) == Some(c)
    requires |pre| == g.preSize && |post| == g.postSize && NoTag(pre) && |payload| + 12 < 0x1_0000_0000
    requires Alive(s, c) && !s.hosts[s.conns[c].server].srv.stopped
    ensures From(g, s, t) && t.orders == s.orders + [Order(n, dest, payload)] && Arrived(t, c, |s.orders|)
  {
    var msg := Wrapped(pre, g.ids[n], dest, payload, post);
    UnicastGoesTo(g, s, n, dest);
    BackMeansRecorded(g, s, c);
    ReachesItself(Step(g), s);
    UnicastSent(g, s, s, n, dest, payload, pre, post);
    var u := SentNet(g, s, n, dest, payload, msg);
    assert u.conns[c] == s.conns[c].(up := s.conns[c].up + [msg], tags := s.conns[c].tags + [|s.orders|]);
    assert Alive(u, c);
    t := LastArrives(g, s, u, c);
  }

  // ---- connections that nobody will read again ----

  /** Connection c is answered, is not attended, and has had taken from it what it had at s. */
  ghost predicate Dead(s: Net, x: Net, c: nat) {
    && c < |s.conns| && c < |x.conns| && x.conns[c].server < |x.hosts|
    && s.conns[c].tags <= x.conns[c].tags && x.conns[c].taken == s.conns[c].taken
    && x.conns[c].down != [] && x.conns[c].server == s.conns[c].server
    && Abandoned(x.hosts[x.conns[c].server], c)
  }

  /** Connection c is the server's, and whichever slot it is on has no reader and will get none. */
  ghost predicate Abandoned(h: Host, c: nat) {
    c in h.joined && forall k: nat :: SeatOf(h, k) == Some(c) ==> !Attended(h.srv, k)
  }

  /** The connection in hand, if its slot is open, is not abandoned unless no pool entry is left. */
  ghost predicate NotInHand(h: Host, c: nat) {
    forall k: nat :: SeatOf(h, k) == Some(c) ==> h.srv.accept != Srv.Joined(k) && h.srv.accept != Srv.Identified(k)
  }

  lemma AnsweredIsNotInHand(m: nat, h: Host, conns: seq<Conn>, c: nat)
    requires HostOk(m, h, conns) && c < |conns| && conns[c].down != []
    ensures NotInHand(h, c)
  {
    forall k: nat | SeatOf(h, k) == Some(c)
      ensures h.srv.accept != Srv.Joined(k) && h.srv.accept != Srv.Identified(k)
    {
      if h.srv.accept == Srv.Joined(k) || h.srv.accept == Srv.Identified(k) {
        HandIsSeat(m, h, conns);
      }
    }
  }

  /** The server has accepted nobody, or somebody else. */
  ghost predicate JoinsAnother(h: Host, h': Host, c: nat) {
    || (h'.joined == h.joined && h'.srv.issued == h.srv.issued)
    || (|h'.joined| == |h.joined| + 1 && h.joined <= h'.joined && h'.joined[|h.joined|] != c
        && h'.srv.issued == h.srv.issued + 1)
  }

  /** No step of the server puts connection c on a slot again, or gives its slot a reader. */
  lemma StaysAbandoned(m: nat, h: Host, conns: seq<Conn>, c: nat, a: Srv.Action, h': Host)
    requires HostOk(m, h, conns) && Abandoned(h, c) && NotInHand(h, c) && Srv.CanDo(h.srv, a)
    requires h'.srv == Srv.Do(h.srv, a)
    requires JoinsAnother(h, h', c)
    ensures Abandoned(h', c)
  {
    forall k: nat | SeatOf(h', k) == Some(c)
      ensures !Attended(h'.srv, k)
    {
      SeatWasThere(m, h, conns, c, a, h', k);
      NoReaderComes(h.srv, a, k);
    }
  }

  lemma SeatWasThere(m: nat, h: Host, conns: seq<Conn>, c: nat, a: Srv.Action, h': Host, k: nat)
    requires HostOk(m, h, conns) && c in h.joined && Srv.CanDo(h.srv, a) && h'.srv == Srv.Do(h.srv, a)
    requires JoinsAnother(h, h', c)
    requires SeatOf(h', k) == Some(c)
    ensures SeatOf(h, k) == Some(c)
  {
    if Srv.OfReader(a) {
      Srv.ReaderMoves(h.srv, a);
    }
  }

  /** A slot without a reader that is not about to get one does not get one. */
  lemma NoReaderComes(v: Srv.State, a: Srv.Action, k: nat)
    requires Srv.CanDo(v, a) && !Attended(v, k) && k < MAX_CLIENTS && v.server.slots[k].open
    requires v.accept != Srv.Joined(k) && v.accept != Srv.Identified(k)
    ensures !Attended(Srv.Do(v, a), k)
  {
    var w := Srv.Do(v, a);
    forall j: nat
      ensures !ReadsSlot(w, j, k)
    {
      assert !ReadsSlot(v, j, k);
    }
  }

  lemma ClientStepStaysDead(g: Config, s: Net, x: Net, c: nat, a: Action)
    requires Dead(s, x, c) && CanDo(g, x, a) && !OfServer(a)
    ensures Dead(s, Do(g, x, a), c)
  {
    ClientStepIsAside(g, x, a);
    assert SameForServer(x.conns[c], Do(g, x, a).conns[c]);
    TagsGrow(g, x, c, a);
  }

  lemma TagsGrow(g: Config, x: Net, c: nat, a: Action)
    requires CanDo(g, x, a) && !OfServer(a) && c < |x.conns|
    ensures c < |Do(g, x, a).conns| && x.conns[c].tags <= Do(g, x, a).conns[c].tags
  {
  }

  /** The connection a server step is on, if it is on one. */
  ghost function MovedConn(x: Net, a: Action): Option<nat>
    requires OfServer(a) && a.m < |x.hosts|
  {
    var h := x.hosts[a.m];
    match a
    case AcceptOn(m) => Some(NextWaiting(x.conns, m, 0))
    case TakeIdOn(_, _) => if h.srv.accept.Joined? then SeatOf(h, h.srv.accept.k) else None
    case AnswerOn(_, _, arrives) => if arrives && h.srv.accept.Identified? then SeatOf(h, h.srv.accept.k) else None
    case TakeOn(_, j) =>
      if j < |h.srv.threads| && h.srv.threads[j].Running? then SeatOf(h, h.srv.threads[j].k) else None
    case HandOverOn(_, j) => if j in h.held then Some(h.held[j].c) else None
    case _ => None
  }

  lemma OnlyMovedConn(g: Config, x: Net, a: Action, c: nat)
    requires CanDo(g, x, a) && OfServer(a) && c < |x.conns| && MovedConn(x, a) != Some(c)
    ensures |Do(g, x, a).conns| == |x.conns| && Do(g, x, a).conns[c] == x.conns[c]
  {
  }

  lemma MovedIsOwn(g: Config, x: Net, a: Action)
    requires |g.files| == |g.ids| && Inv(g, x) && CanDo(g, x, a) && OfServer(a) && MovedConn(x, a).Some?
    ensures MovedConn(x, a).value < |x.conns| && x.conns[MovedConn(x, a).value].server == a.m
  {
    var h := x.hosts[a.m];
    assert HostOk(a.m, h, x.conns);
    match a
    case HandOverOn(m, j) => assert HeldOk(m, h, x.conns, j);
    case TakeIdOn(m, _) => SeatIsJoined(g, x, m, h.srv.accept.k);
    case AnswerOn(m, _, _) => SeatIsJoined(g, x, m, h.srv.accept.k);
    case TakeOn(m, j) => SeatIsJoined(g, x, m, h.srv.threads[j].k);
    case _ =>
  }

  /** Server steps on other connections. */
  lemma OtherServerStaysDead(g: Config, s: Net, x: Net, c: nat, a: Action)
    requires |g.files| == |g.ids| && Inv(g, x) && Dead(s, x, c) && CanDo(g, x, a) && OfServer(a)
    requires a.m != x.conns[c].server
    ensures Dead(s, Do(g, x, a), c)
  {
    if MovedConn(x, a) == Some(c) {
      MovedIsOwn(g, x, a);
    }
    OnlyMovedConn(g, x, a, c);
    OthersLeaveHost(g, x, x.conns[c].server, a);
  }

  /** A step of the server on a dead connection takes nothing from it. */
  lemma DeadIsNotTaken(g: Config, s: Net, x: Net, c: nat, a: Action)
    requires |g.files| == |g.ids| && Dead(s, x, c) && CanDo(g, x, a) && OfServer(a) && a.m == x.conns[c].server
    requires NotInHand(x.hosts[a.m], c)
    ensures var t := Do(g, x, a);
            && |t.conns| == |x.conns| && t.conns[c].taken == x.conns[c].taken && t.conns[c].down != []
            && t.conns[c].tags == x.conns[c].tags && t.conns[c].server == x.conns[c].server
  {
    var h := x.hosts[a.m];
    if a.TakeOn? && MovedConn(x, a) == Some(c) {
      assert ReadsSlot(h.srv, a.j, h.srv.threads[a.j].k);
    }
  }

  lemma JoinedGrowsByAnother(g: Config, x: Net, c: nat, a: Action)
    requires CanDo(g, x, a) && OfServer(a) && c < |x.conns| && x.conns[c].accepted
    ensures JoinsAnother(x.hosts[a.m], Do(g, x, a).hosts[a.m], c)
  {
    ServerActionDone(g, x, a);
    IssuedOnAccept(x.hosts[a.m].srv, ServerAction(x, a));
  }

  lemma IssuedOnAccept(v: Srv.State, a: Srv.Action)
    requires Srv.CanDo(v, a)
    ensures Srv.Do(v, a).issued == v.issued
            || (a.Accept? && a.accepted && a.activity && Srv.Do(v, a).issued == v.issued + 1)
    ensures a == Srv.Accept(true, true) && Servers.FirstClosed(v.server.slots, 0) < MAX_CLIENTS ==>
              Srv.Do(v, a).issued == v.issued + 1
  {
  }

  lemma OwnServerStaysDead(g: Config, s: Net, x: Net, c: nat, a: Action)
    requires |g.files| == |g.ids| && Inv(g, x) && Dead(s, x, c) && CanDo(g, x, a) && OfServer(a)
    requires a.m == x.conns[c].server
    ensures Dead(s, Do(g, x, a), c)
  {
    var h := x.hosts[a.m];
    assert HostOk(a.m, h, x.conns);
    AnsweredIsNotInHand(a.m, h, x.conns, c);
    DeadIsNotTaken(g, s, x, c, a);
    assert x.conns[c].accepted;
    ServerActionDone(g, x, a);
    JoinedGrowsByAnother(g, x, c, a);
    StaysAbandoned(a.m, h, x.conns, c, ServerAction(x, a), Do(g, x, a).hosts[a.m]);
  }

  lemma StaysDead(g: Config, s: Net, t: Net, c: nat)
    requires ConfigOk(g) && Inv(g, s) && From(g, s, t) && Dead(s, s, c)
    ensures Inv(g, t) && Dead(s, t, c)
  {
    var inv := (x: Net) => Inv(g, x) && Dead(s, x, c);
    forall x: Net, a | inv(x) && Step(g)(x, a).Some?
      ensures inv(Step(g)(x, a).value)
    {
      StepKeepsInv(g, x, a);
      if !OfServer(a) {
        ClientStepStaysDead(g, s, x, c, a);
      } else if a.m == x.conns[c].server {
        OwnServerStaysDead(g, s, x, c, a);
      } else {
        OtherServerStaysDead(g, s, x, c, a);
      }
    }
    InvariantHolds(Step(g), inv, s, t);
  }

  /** A connection that is not attended now never is again, and nothing more of it is handed up. */
  lemma NothingArrives(g: Config, s: Net, t: Net, c: nat)
    requires ConfigOk(g) && Inv(g, s) && From(g, s, t) && c < |s.conns| && s.conns[c].back == 1 && !Alive(s, c)
    ensures !Arrived(t, c, |s.orders|)
  {
    BackMeansRecorded(g, s, c);
    assert HostOk(s.conns[c].server, s.hosts[s.conns[c].server], s.conns);
    StaysDead(g, s, t, c);
    assert ConnInv(g, t.orders, t.conns[c]);
    forall a | 0 <= a < |t.conns[c].handed| && 1 <= t.conns[c].handed[a] <= |t.conns[c].tags|
      ensures t.conns[c].tags[t.conns[c].handed[a] - 1] != |s.orders|
    {
      assert t.conns[c].handed[a] < s.conns[c].taken;
      assert t.conns[c].tags[t.conns[c].handed[a] - 1] == s.conns[c].tags[t.conns[c].handed[a] - 1];
    }
  }

  /** From every reachable state, a payload for a connected node can be handed up there exactly if the connection the
      lookup ends at is attended at the server's end: its slot is still open on it, and a reader that has not failed is
      on that slot or about to be started for it. That shuts out strays, connections whose socket was closed, and those
      whose last reader has failed, and nothing else. */
  lemma UnicastArrivesIff(g: Config, s: Net, n: nat, dest: U32, payload: seq<byte>, c: nat)
    requires ConfigOk(g) && Reachable(g, s) && CanSend(g, s, n, dest) && |payload| + 12 < 0x1_0000_0000
    requires LinkOf(s, n, Pool.LookUp(s.nodes[n].pool, dest)) == Some(c)
    requires s.conns[c].server < |s.hosts| && !s.hosts[s.conns[c].server].srv.stopped
    ensures (exists t :: From(g, s, t) && s.orders + [Order(n, dest, payload)] <= t.orders && Arrived(t, c, |s.orders|))
            <==> Alive(s, c)
  {
    ReachableInv(g, s);
    UnicastGoesTo(g, s, n, dest);
    if Alive(s, c) {
      var (pre, post) := (seq(g.preSize, _ => 0), seq(g.postSize, _ => 0));
      var t := UnicastArrives(g, s, n, dest, payload, pre, post, c);
      assert s.orders + [Order(n, dest, payload)] <= t.orders;
    } else {
      forall t | From(g, s, t)
        ensures !Arrived(t, c, |s.orders|)
      {
        NothingArrives(g, s, t, c);
      }
    }
  }

  /** What has arrived is what was ordered: the deframer reports the source and the very same bytes. */
  lemma ArrivedIsDelivered(g: Config, s: Net, c: nat, tag: nat) returns (a: nat)
    requires ConfigOk(g) && Reachable(g, s) && Arrived(s, c, tag)
    ensures tag < |s.orders| && a < |s.conns[c].handed| && s.conns[c].handed[a] < |s.conns[c].up|
    ensures s.orders[tag].node < |g.ids|
    ensures Uplink(g, s.conns[c].up[s.conns[c].handed[a]])
            == Some(Delivery(g.ids[s.orders[tag].node], s.orders[tag].payload))
  {
    ReachableInv(g, s);
    a :| 0 <= a < |s.conns[c].handed| && 1 <= s.conns[c].handed[a] <= |s.conns[c].tags|
         && s.conns[c].tags[s.conns[c].handed[a] - 1] == tag;
    TagIsDelivered(g, s.orders, s.conns[c], s.conns[c].handed[a]);
  }

  lemma TagIsDelivered(g: Config, orders: seq<Order>, conn: Conn, i: nat)
    requires ConnInv(g, orders, conn) && 1 <= i <= |conn.tags|
    ensures i < |conn.up| && conn.tags[i - 1] < |orders| && orders[conn.tags[i - 1]].node < |g.ids|
    ensures var order := orders[conn.tags[i - 1]];
            Uplink(g, conn.up[i]) == Some(Delivery(g.ids[order.node], order.payload))
  {
    assert DataOk(g, orders, conn, i - 1);
    CarriedIsDelivered(g, conn.up[i], g.ids[conn.client], orders[conn.tags[i - 1]]);
  }
}
