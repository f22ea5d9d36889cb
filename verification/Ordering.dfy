/** Exactly when a connection is bound to hand its messages up in order. */
module Ordering {
  import opened SwarmTypes
  import opened Hosts
  import opened Network
  import opened NetworkSafety
  import opened Joining
  import opened Completion
  import opened Arrival
  import opened Transitions
  import Clients = ClientPool
  import Servers = ServerPool
  import Srv = ServerRuns

  // ---- who takes from a connection ----

  /** Reader j reads the slot that is on connection c, whether it was started for c or not. */
  predicate OnConn(h: Host, j: nat, c: nat) {
    && j < |h.srv.threads| && h.srv.threads[j].Running?
    && ReadsSlot(h.srv, j, h.srv.threads[j].k) && SeatOf(h, h.srv.threads[j].k) == Some(c)
  }

  /** Reader j has received a message of connection c and not handed it up yet. */
  predicate Holds(h: Host, j: nat, c: nat) {
    j in h.held && h.held[j].c == c
  }

  predicate Taker(h: Host, j: nat, c: nat) {
    OnConn(h, j, c) || Holds(h, j, c)
  }

  /** A reader is about to be started for connection c. */
  predicate Expected(h: Host, c: nat) {
    && h.srv.accept.Ready? && SeatOf(h, h.srv.accept.k) == Some(c)
    && Servers.FirstUnstarted(h.srv.tasks.started, 0) < |h.srv.tasks.started|
  }

  /** No two readers take from connection c, counting the one that is about to be started. */
  ghost predicate OneTaker(h: Host, c: nat) {
    && (forall i: nat, j: nat | Taker(h, i, c) && Taker(h, j, c) :: i == j)
    && (Expected(h, c) ==> forall j: nat :: !Taker(h, j, c))
  }

  /** What is still held of connection c comes after all that was handed up. */
  ghost predicate HeldAbove(h: Host, conn: Conn, c: nat) {
    forall j: nat, a: nat | Holds(h, j, c) && a < |conn.handed| :: conn.handed[a] < h.held[j].i
  }

  /** Connection c has been in order so far, and has one reader at most to go on. */
  ghost predicate Sound(s: Net, c: nat) {
    && c < |s.conns| && s.conns[c].server < |s.hosts|
    && var h := s.hosts[s.conns[c].server];
    && Increasing(s.conns[c].handed) && OneTaker(h, c) && HeldAbove(h, s.conns[c], c)
  }

  // ---- a sound connection stays so ----

  /** Only the start of a reader puts a reader on a slot. */
  lemma NoReaderTurnsUp(v: Srv.State, b: Srv.Action, j: nat)
    requires Srv.CanDo(v, b) && j < |Srv.Do(v, b).threads| && Srv.Do(v, b).threads[j].Running?
    requires ReadsSlot(Srv.Do(v, b), j, Srv.Do(v, b).threads[j].k)
    ensures || (j < |v.threads| && v.threads[j].Running? && v.threads[j].k == Srv.Do(v, b).threads[j].k
                && ReadsSlot(v, j, v.threads[j].k))
            || (b.StartReader? && j == Servers.FirstUnstarted(v.tasks.started, 0) < MAX_TASKS
                && Srv.Do(v, b).threads[j].k == v.accept.k)
  {
  }

  /** A step of the server gives connection c no taker but the reader that was expected. */
  lemma NoTakerComes(m: nat, h: Host, conns: seq<Conn>, c: nat, b: Srv.Action, h': Host, j: nat)
    requires HostOk(m, h, conns) && NotInHand(h, c) && c in h.joined && Srv.CanDo(h.srv, b)
    requires h'.srv == Srv.Do(h.srv, b) && JoinsAnother(h, h', c) && OnConn(h', j, c)
    ensures OnConn(h, j, c) || (Expected(h, c) && j == Servers.FirstUnstarted(h.srv.tasks.started, 0))
  {
    SeatWasThere(m, h, conns, c, b, h', h'.srv.threads[j].k);
    NoReaderTurnsUp(h.srv, b, j);
  }

  lemma NobodyIsExpected(m: nat, h: Host, conns: seq<Conn>, c: nat, b: Srv.Action, h': Host)
    requires HostOk(m, h, conns) && NotInHand(h, c) && c in h.joined && Srv.CanDo(h.srv, b)
    requires h'.srv == Srv.Do(h.srv, b) && JoinsAnother(h, h', c) && Expected(h', c)
    ensures Expected(h, c) && !b.StartReader?
  {
    SeatWasThere(m, h, conns, c, b, h', h'.srv.accept.k);
    if Srv.OfReader(b) {
      Srv.ReaderMoves(h.srv, b);
    }
  }

  lemma TakerWasThere(m: nat, h: Host, conns: seq<Conn>, c: nat, b: Srv.Action, h': Host, j: nat)
    requires HostOk(m, h, conns) && NotInHand(h, c) && c in h.joined && Srv.CanDo(h.srv, b)
    requires h'.srv == Srv.Do(h.srv, b) && JoinsAnother(h, h', c) && Taker(h', j, c)
    requires Holds(h', j, c) ==> Taker(h, j, c)
    ensures Taker(h, j, c) || (Expected(h, c) && j == Servers.FirstUnstarted(h.srv.tasks.started, 0))
  {
    if OnConn(h', j, c) {
      NoTakerComes(m, h, conns, c, b, h', j);
    }
  }

  lemma OneTakerStays(m: nat, h: Host, conns: seq<Conn>, c: nat, b: Srv.Action, h': Host)
    requires HostOk(m, h, conns) && NotInHand(h, c) && c in h.joined && Srv.CanDo(h.srv, b)
    requires h'.srv == Srv.Do(h.srv, b) && JoinsAnother(h, h', c) && OneTaker(h, c)
    requires forall j: nat | Holds(h', j, c) :: Taker(h, j, c)
    ensures OneTaker(h', c)
  {
    forall i: nat, j: nat | Taker(h', i, c) && Taker(h', j, c)
      ensures i == j
    {
      TakerWasThere(m, h, conns, c, b, h', i);
      TakerWasThere(m, h, conns, c, b, h', j);
    }
    if Expected(h', c) {
      NobodyIsExpected(m, h, conns, c, b, h');
      forall j: nat
        ensures !Taker(h', j, c)
      {
        if Taker(h', j, c) {
          NothingStarts(m, h, conns, c, b, h', j);
        }
      }
    }
  }

  lemma NothingStarts(m: nat, h: Host, conns: seq<Conn>, c: nat, b: Srv.Action, h': Host, j: nat)
    requires HostOk(m, h, conns) && NotInHand(h, c) && c in h.joined && Srv.CanDo(h.srv, b) && !b.StartReader?
    requires h'.srv == Srv.Do(h.srv, b) && JoinsAnother(h, h', c) && Taker(h', j, c)
    requires Holds(h', j, c) ==> Taker(h, j, c)
    ensures Taker(h, j, c)
  {
    if OnConn(h', j, c) {
      SeatWasThere(m, h, conns, c, b, h', h'.srv.threads[j].k);
      NoReaderTurnsUp(h.srv, b, j);
    }
  }

  lemma TakeStaysSound(m: nat, h: Host, conns: seq<Conn>, c: nat, j: nat)
    requires HostOk(m, h, conns) && CanTake(h, conns, j) && c < |conns| && HeldAbove(h, conns[c], c)
    requires forall a | 0 <= a < |conns[c].handed| :: conns[c].handed[a] < conns[c].taken
    ensures var d := SeatOf(h, h.srv.threads[j].k).value;
            var h' := Took(h, j, Message(d, conns[d].taken));
            && (forall i: nat | Holds(h', i, c) :: Taker(h, i, c))
            && HeldAbove(h', conns[c], c)
  {
  }

  lemma HandOverStaysSound(m: nat, h: Host, conns: seq<Conn>, c: nat, j: nat)
    requires HostOk(m, h, conns) && CanHandOver(h, conns, j) && c < |conns| && HeldAbove(h, conns[c], c)
    requires OneTaker(h, c) && Increasing(conns[c].handed)
    ensures var h' := HandedOver(h, j);
            var conn' := if h.held[j].c == c then HandedUp(conns[c], h.held[j].i) else conns[c];
            && (forall i: nat | Holds(h', i, c) :: Taker(h, i, c))
            && HeldAbove(h', conn', c) && Increasing(conn'.handed)
  {
    var h' := HandedOver(h, j);
    if h.held[j].c == c {
      forall i: nat
        ensures !Holds(h', i, c)
      {
        if Holds(h', i, c) {
          assert Taker(h, i, c) && Taker(h, j, c);
        }
      }
    }
  }

  /** What a step of the server does to what is held of connection c and to what was handed up. */
  ghost predicate HandsOn(h: Host, h': Host, conn': Conn, c: nat) {
    && (forall j: nat | Holds(h', j, c) :: Taker(h, j, c))
    && HeldAbove(h', conn', c) && Increasing(conn'.handed)
  }

  lemma ServerHandsOn(g: Config, x: Net, c: nat, a: Action)
    requires CanDo(g, x, a) && OfServer(a) && Sound(x, c) && a.m == x.conns[c].server
    requires HostOk(a.m, x.hosts[a.m], x.conns) && x.conns[c].down != []
    requires forall i | 0 <= i < |x.conns[c].handed| :: x.conns[c].handed[i] < x.conns[c].taken
    ensures var t := Do(g, x, a);
            && |t.hosts| == |x.hosts| && |t.conns| == |x.conns| && t.conns[c].server == a.m && t.conns[c].down != []
            && HandsOn(x.hosts[a.m], t.hosts[a.m], t.conns[c], c)
  {
    if a.TakeOn? {
      TakeStaysSound(a.m, x.hosts[a.m], x.conns, c, a.j);
    } else if a.HandOverOn? {
      HandOverStaysSound(a.m, x.hosts[a.m], x.conns, c, a.j);
    } else {
      OthersHandOn(g, x, c, a);
    }
  }

  lemma OthersHandOn(g: Config, x: Net, c: nat, a: Action)
    requires CanDo(g, x, a) && OfServer(a) && !a.TakeOn? && !a.HandOverOn? && c < |x.conns|
    ensures var t := Do(g, x, a);
            && |t.hosts| == |x.hosts| && |t.conns| == |x.conns| && t.conns[c].server == x.conns[c].server
            && t.conns[c].handed == x.conns[c].handed && t.hosts[a.m].held == x.hosts[a.m].held
            && (x.conns[c].down != [] ==> t.conns[c].down != [])
  {
  }

  /** The state x, to which the network got from s, is as sound for connection c as s was. */
  ghost predicate Steady(s: Net, x: Net, c: nat) {
    && c < |s.conns| && Sound(x, c) && x.conns[c].server == s.conns[c].server && x.conns[c].down != []
  }

  lemma OwnServerStaysSound(g: Config, s: Net, x: Net, c: nat, a: Action)
    requires |g.files| == |g.ids| && Inv(g, x) && Steady(s, x, c) && CanDo(g, x, a) && OfServer(a)
    requires a.m == x.conns[c].server
    ensures Steady(s, Do(g, x, a), c)
  {
    var h := x.hosts[a.m];
    assert HostOk(a.m, h, x.conns) && ConnInv(g, x.orders, x.conns[c]);
    AnsweredIsNotInHand(a.m, h, x.conns, c);
    ServerActionDone(g, x, a);
    JoinedGrowsByAnother(g, x, c, a);
    ServerHandsOn(g, x, c, a);
    OneTakerStays(a.m, h, x.conns, c, ServerAction(x, a), Do(g, x, a).hosts[a.m]);
  }

  lemma OtherServerStaysSound(g: Config, s: Net, x: Net, c: nat, a: Action)
    requires |g.files| == |g.ids| && Inv(g, x) && Steady(s, x, c) && CanDo(g, x, a) && OfServer(a)
    requires a.m != x.conns[c].server
    ensures Steady(s, Do(g, x, a), c)
  {
    if MovedConn(x, a) == Some(c) {
      MovedIsOwn(g, x, a);
    }
    OnlyMovedConn(g, x, a, c);
    OthersLeaveHost(g, x, x.conns[c].server, a);
  }

  lemma ClientStepStaysSound(g: Config, s: Net, x: Net, c: nat, a: Action)
    requires Steady(s, x, c) && CanDo(g, x, a) && !OfServer(a)
    ensures Steady(s, Do(g, x, a), c)
  {
    ClientStepIsAside(g, x, a);
    assert SameForServer(x.conns[c], Do(g, x, a).conns[c]);
  }

  lemma StaysSound(g: Config, s: Net, t: Net, c: nat)
    requires ConfigOk(g) && Inv(g, s) && From(g, s, t) && Steady(s, s, c)
    ensures Sound(t, c)
  {
    var inv := (x: Net) => Inv(g, x) && Steady(s, x, c);
    forall x: Net, a | inv(x) && Step(g)(x, a).Some?
      ensures inv(Step(g)(x, a).value)
    {
      StepKeepsInv(g, x, a);
      if !OfServer(a) {
        ClientStepStaysSound(g, s, x, c, a);
      } else if a.m == x.conns[c].server {
        OwnServerStaysSound(g, s, x, c, a);
      } else {
        OtherServerStaysSound(g, s, x, c, a);
      }
    }
    InvariantHolds(Step(g), inv, s, t);
  }

  // ---- any other connection can get out of order ----

  /** Node n can put data on connection c, whose server has not been stopped. */
  ghost predicate Feeds(g: Config, s: Net, n: nat, dest: U32, c: nat) {
    && CanSend(g, s, n, dest) && LinkOf(s, n, Clients.LookUp(s.nodes[n].pool, dest)) == Some(c)
    && s.conns[c].server < |s.hosts| && !s.hosts[s.conns[c].server].srv.stopped
  }

  lemma OnlyReaderOn(s: Net, t: Net, u: Net, m: nat, j: nat)
    requires OnlyReader(s, t, m, j) && OnlyReader(t, u, m, j)
    ensures OnlyReader(s, u, m, j)
  {
  }

  lemma OtherTakerStays(s: Net, t: Net, m: nat, j: nat, i: nat, c: nat)
    requires OnlyReader(s, t, m, j) && i != j
    ensures Taker(s.hosts[m], i, c) <==> Taker(t.hosts[m], i, c)
    ensures Holds(s.hosts[m], i, c) <==> Holds(t.hosts[m], i, c)
  {
    var (a, b) := (s.hosts[m].held - {j}, t.hosts[m].held - {j});
    assert i in s.hosts[m].held <==> i in a;
    assert i in t.hosts[m].held <==> i in b;
    assert i in a ==> a[i] == s.hosts[m].held[i] && b[i] == t.hosts[m].held[i];
  }

  /** The client sends some payload. */
  lemma ClientFeeds(g: Config, s0: Net, s: Net, n: nat, dest: U32, c: nat) returns (t: Net)
    requires ConfigOk(g) && Inv(g, s0) && From(g, s0, s) && Feeds(g, s, n, dest, c)
    ensures From(g, s0, t) && Feeds(g, t, n, dest, c) && t.hosts == s.hosts && |t.conns| == |s.conns|
    ensures t.conns[c].taken < |t.conns[c].up| && t.conns[c].server == s.conns[c].server
  {
    FromInv(g, s0, s);
    UnicastGoesTo(g, s, n, dest);
    BackMeansRecorded(g, s, c);
    var (pre, post) := (seq(g.preSize, _ => 0), seq(g.postSize, _ => 0));
    UnicastSent(g, s0, s, n, dest, [], pre, post);
    t := SentNet(g, s, n, dest, [], Wrapped(pre, g.ids[n], dest, [], post));
  }

  lemma StillFeeds(g: Config, s: Net, t: Net, n: nat, dest: U32, c: nat, m: nat, j: nat)
    requires Feeds(g, s, n, dest, c) && Sized(g, t) && OnlyHandsUp(s, t, c)
    requires s.conns[c].server == m && OnlyReader(s, t, m, j)
    ensures Feeds(g, t, n, dest, c)
  {
  }

  /** A reader of the connection gets to where it is about to receive. */
  lemma ReaderGetsReady(g: Config, s0: Net, s: Net, m: nat, j: nat, k: nat, c: nat) returns (t: Net)
    requires ConfigOk(g) && Inv(g, s0) && From(g, s0, s) && Serves(s, m, j, k, c)
    ensures From(g, s0, t) && OnlyHandsUp(s, t, c) && OnlyReader(s, t, m, j) && Serves(t, m, j, k, c)
    ensures t.hosts[m].srv.threads[j].pc.Receiving?
  {
    FromInv(g, s0, s);
    HeldAreKnown(s, m, j);
    var u := s;
    if Srv.HandsOn(s.hosts[m].srv.threads[j].pc) {
      u := ReaderHandsUp(g, s0, s, m, j, k, c);
    }
    t := ReaderLooks(g, s0, u, m, j, k, c);
    OnlyReaderOn(s, u, t, m, j);
  }

  /** A reader of the connection comes to hold a message of it. */
  lemma ReaderHolds(g: Config, s0: Net, s: Net, n: nat, dest: U32, m: nat, j: nat, k: nat, c: nat) returns (t: Net)
    requires ConfigOk(g) && Inv(g, s0) && From(g, s0, s) && Feeds(g, s, n, dest, c) && s.conns[c].server == m
    requires Serves(s, m, j, k, c)
    ensures From(g, s0, t) && Feeds(g, t, n, dest, c) && OnlyReader(s, t, m, j) && Holds(t.hosts[m], j, c)
    ensures t.conns[c].server == m
  {
    var u := ReaderGetsReady(g, s0, s, m, j, k, c);
    FromInv(g, s0, u);
    StillFeeds(g, s, u, n, dest, c, m, j);
    var v := ClientFeeds(g, s0, u, n, dest, c);
    t := ReaderTakes(g, s0, v, m, j, k, c);
    FromInv(g, s0, t);
    StillFeeds(g, v, t, n, dest, c, m, j);
    OnlyReaderOn(s, v, t, m, j);
  }

  lemma TakerServes(s: Net, m: nat, j: nat, c: nat)
    requires m < |s.hosts| && HostOk(m, s.hosts[m], s.conns) && c < |s.conns| && !s.hosts[m].srv.stopped
    requires Taker(s.hosts[m], j, c)
    ensures j < |s.hosts[m].srv.threads|
    ensures OnConn(s.hosts[m], j, c) ==> Serves(s, m, j, s.hosts[m].srv.threads[j].k, c)
  {
    assert HeldOk(m, s.hosts[m], s.conns, j);
  }

  lemma TakerHolds(g: Config, s0: Net, s: Net, n: nat, dest: U32, m: nat, j: nat, c: nat) returns (t: Net)
    requires ConfigOk(g) && Inv(g, s0) && From(g, s0, s) && Feeds(g, s, n, dest, c) && s.conns[c].server == m
    requires Taker(s.hosts[m], j, c)
    ensures From(g, s0, t) && Feeds(g, t, n, dest, c) && OnlyReader(s, t, m, j) && Holds(t.hosts[m], j, c)
    ensures t.conns[c].server == m
  {
    FromInv(g, s0, s);
    TakerServes(s, m, j, c);
    if Holds(s.hosts[m], j, c) {
      t := s;
    } else {
      t := ReaderHolds(g, s0, s, n, dest, m, j, s.hosts[m].srv.threads[j].k, c);
    }
  }

  lemma HolderCan(m: nat, h: Host, conns: seq<Conn>, j: nat, c: nat)
    requires HostOk(m, h, conns) && Holds(h, j, c)
    ensures CanHandOver(h, conns, j)
  {
    assert HeldOk(m, h, conns, j);
  }

  /** Reader j hands up its message of connection c. */
  lemma HolderHandsUp(g: Config, s0: Net, s: Net, m: nat, j: nat, c: nat) returns (t: Net)
    requires ConfigOk(g) && Inv(g, s0) && From(g, s0, s) && m < |s.hosts| && Holds(s.hosts[m], j, c)
    ensures c < |s.conns| && From(g, s0, t) && |t.hosts| == |s.hosts| && |t.conns| == |s.conns|
    ensures t.conns[c].handed == s.conns[c].handed + [s.hosts[m].held[j].i]
    ensures t.hosts[m].held == s.hosts[m].held - {j}
  {
    FromInv(g, s0, s);
    HolderCan(m, s.hosts[m], s.conns, j, c);
    Go(g, s0, s, HandOverOn(m, j));
    t := HasHandedOver(s, m, j);
  }

  /** A message that is held although a later one was handed up. */
  lemma LateHandedUp(g: Config, s: Net, m: nat, j: nat, c: nat, a: nat) returns (t: Net)
    requires ConfigOk(g) && Inv(g, s) && m < |s.hosts| && Holds(s.hosts[m], j, c)
    requires c < |s.conns| && a < |s.conns[c].handed| && s.hosts[m].held[j].i <= s.conns[c].handed[a]
    ensures From(g, s, t) && c < |t.conns| && !Increasing(t.conns[c].handed)
  {
    ReachesItself(Step(g), s);
    t := HolderHandsUp(g, s, s, m, j, c);
    var handed := t.conns[c].handed;
    assert handed[a] >= handed[|s.conns[c].handed|];
  }

  /** Two messages that are held by two readers. */
  lemma BothHandedUp(g: Config, s0: Net, s: Net, m: nat, i: nat, j: nat, c: nat) returns (t: Net)
    requires ConfigOk(g) && Inv(g, s0) && From(g, s0, s) && m < |s.hosts| && i != j
    requires Holds(s.hosts[m], i, c) && Holds(s.hosts[m], j, c) && s.hosts[m].held[i].i >= s.hosts[m].held[j].i
    ensures From(g, s0, t) && c < |t.conns| && !Increasing(t.conns[c].handed)
  {
    var u := HolderHandsUp(g, s0, s, m, i, c);
    t := HolderHandsUp(g, s0, u, m, j, c);
    var (handed, l) := (t.conns[c].handed, |s.conns[c].handed|);
    assert handed[l] == s.hosts[m].held[i].i && handed[l + 1] == s.hosts[m].held[j].i;
  }

  lemma TwoTakersDisorder(g: Config, s0: Net, s: Net, n: nat, dest: U32, c: nat, i: nat, j: nat) returns (t: Net)
    requires ConfigOk(g) && Inv(g, s0) && From(g, s0, s) && Feeds(g, s, n, dest, c) && i != j
    requires Taker(s.hosts[s.conns[c].server], i, c) && Taker(s.hosts[s.conns[c].server], j, c)
    ensures From(g, s0, t) && c < |t.conns| && !Increasing(t.conns[c].handed)
  {
    var m := s.conns[c].server;
    var u := TakerHolds(g, s0, s, n, dest, m, i, c);
    OtherTakerStays(s, u, m, i, j, c);
    var v := TakerHolds(g, s0, u, n, dest, m, j, c);
    OtherTakerStays(u, v, m, j, i, c);
    if v.hosts[m].held[i].i >= v.hosts[m].held[j].i {
      t := BothHandedUp(g, s0, v, m, i, j, c);
    } else {
      t := BothHandedUp(g, s0, v, m, j, i, c);
    }
  }

  lemma ReaderIsStarted(h: Host, h': Host, c: nat, i: nat)
    requires Srv.Inv(h.srv) && Expected(h, c) && Taker(h, i, c)
    requires i in h.held ==> i < |h.srv.threads| && h.srv.threads[i].Running?
    requires Srv.CanDo(h.srv, Srv.StartReader) && h' == h.(srv := Srv.Do(h.srv, Srv.StartReader))
    ensures var j := Servers.FirstUnstarted(h.srv.tasks.started, 0);
            i != j && Taker(h', i, c) && Taker(h', j, c)
  {
    var j := Servers.FirstUnstarted(h.srv.tasks.started, 0);
    assert h.srv.tasks.started[i] by {
      assert h.srv.threads[i].Running?;
    }
    assert OnConn(h', j, c);
  }

  lemma ExpectedCanStart(m: nat, h: Host, conns: seq<Conn>, c: nat, i: nat)
    requires HostOk(m, h, conns) && Expected(h, c) && Taker(h, i, c)
    ensures Srv.CanDo(h.srv, Srv.StartReader)
    ensures var (h', j) := (h.(srv := Srv.Do(h.srv, Srv.StartReader)), Servers.FirstUnstarted(h.srv.tasks.started, 0));
            i != j && Taker(h', i, c) && Taker(h', j, c)
  {
    assert HeldOk(m, h, conns, i);
    ReaderIsStarted(h, h.(srv := Srv.Do(h.srv, Srv.StartReader)), c, i);
  }

  lemma ReaderStartedHere(g: Config, s: Net, m: nat, n: nat, dest: U32, c: nat) returns (t: Net)
    requires Feeds(g, s, n, dest, c) && s.conns[c].server == m && Srv.CanDo(s.hosts[m].srv, Srv.StartReader)
    ensures From(g, s, t) && Feeds(g, t, n, dest, c) && t.conns[c].server == m
    ensures t.hosts[m] == s.hosts[m].(srv := Srv.Do(s.hosts[m].srv, Srv.StartReader))
  {
    ReachesItself(Step(g), s);
    t := OwnStepLifts(g, s, s, m, Srv.StartReader);
  }

  /** The expected reader is started beside one that takes from the connection already. */
  lemma ExpectedDisorders(g: Config, s: Net, n: nat, dest: U32, c: nat, i: nat) returns (t: Net)
    requires ConfigOk(g) && Inv(g, s) && Feeds(g, s, n, dest, c)
    requires Expected(s.hosts[s.conns[c].server], c) && Taker(s.hosts[s.conns[c].server], i, c)
    ensures From(g, s, t) && c < |t.conns| && !Increasing(t.conns[c].handed)
  {
    var m := s.conns[c].server;
    ExpectedCanStart(m, s.hosts[m], s.conns, c, i);
    var u := ReaderStartedHere(g, s, m, n, dest, c);
    t := TwoTakersDisorder(g, s, u, n, dest, c, i, Servers.FirstUnstarted(s.hosts[m].srv.tasks.started, 0));
  }

  /** Whatever is wrong with a connection shows in some run. */
  lemma UnsoundDisorders(g: Config, s: Net, n: nat, dest: U32, c: nat) returns (t: Net)
    requires ConfigOk(g) && Inv(g, s) && Feeds(g, s, n, dest, c) && !Sound(s, c)
    ensures From(g, s, t) && c < |t.conns| && !Increasing(t.conns[c].handed)
  {
    var m := s.conns[c].server;
    var h := s.hosts[m];
    ReachesItself(Step(g), s);
    t := s;
    if !HeldAbove(h, s.conns[c], c) {
      var j: nat, a: nat :| Holds(h, j, c) && a < |s.conns[c].handed| && h.held[j].i <= s.conns[c].handed[a];
      t := LateHandedUp(g, s, m, j, c, a);
    } else if i: nat, j: nat :| Taker(h, i, c) && Taker(h, j, c) && i != j {
      t := TwoTakersDisorder(g, s, s, n, dest, c, i, j);
    } else if Expected(h, c) && !OneTaker(h, c) {
      var i: nat :| Taker(h, i, c);
      t := ExpectedDisorders(g, s, n, dest, c, i);
    }
  }

  /** From a reachable state in which a client can send over connection c, all that c hands up from then on, in every
      run, is in order exactly if c is sound: in order so far, with nothing held back behind what was handed up, and
      with one reader at most that takes from it, whichever connection that reader was started for, counting the one
      that is about to be started. */
  lemma OrderKeptIff(g: Config, s: Net, n: nat, dest: U32, c: nat)
    requires ConfigOk(g) && Reachable(g, s) && Feeds(g, s, n, dest, c)
    ensures (forall t :: From(g, s, t) && c < |t.conns| ==> Increasing(t.conns[c].handed)) <==> Sound(s, c)
  {
    ReachableInv(g, s);
    UnicastGoesTo(g, s, n, dest);
    BackMeansRecorded(g, s, c);
    if Sound(s, c) {
      forall t | From(g, s, t) && c < |t.conns|
        ensures Increasing(t.conns[c].handed)
      {
        StaysSound(g, s, t, c);
      }
    } else {
      var t := UnsoundDisorders(g, s, n, dest, c);
    }
  }
}
