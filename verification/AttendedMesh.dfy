/** Exactly when the network can come to a full mesh over which everything can arrive. */
module AttendedMesh {
  import opened SwarmTypes
  import opened Collections
  import opened ClientPool
  import opened ParseBuffer
  import opened OpenTask
  import opened Hosts
  import opened Network
  import opened NetworkSafety
  import opened Joining
  import opened Completion
  import opened Arrival
  import opened Mesh
  import opened NetworkMesh
  import opened Transitions
  import Room = ServerRoom
  import Servers = ServerPool
  import Srv = ServerRuns

  /** How many connections the files of the nodes from n on ask server m for. */
  ghost function TotalWanted(g: Config, n: nat, m: nat): nat
    requires n <= |g.files|
    decreases |g.files| - n
  {
    if n == |g.files| then 0 else |Wanted(g, n, m)| + TotalWanted(g, n + 1, m)
  }

  /** No server is asked for more connections, over all files, than it has places. */
  ghost predicate FilesFit(g: Config) {
    forall m | 0 <= m < |g.ids| :: TotalWanted(g, 0, m) <= MAX_CLIENTS
  }

  /** The connection of node n's slot k is attended at its server. */
  ghost predicate SlotAttended(s: Net, n: nat, k: nat) {
    LinkOf(s, n, k).Some? && Alive(s, LinkOf(s, n, k).value)
  }

  /** Everybody is meshed, and the connections of all open client slots are attended. */
  ghost predicate Complete(g: Config, s: Net) {
    && Meshed(g, s, Everybody(g))
    && forall n: nat, k: nat | n < |g.ids| && k < MAX_CLIENTS && s.nodes[n].pool[k].open :: SlotAttended(s, n, k)
  }

  // ---- when there is one ----

  lemma {:induction false} NeedAtStart(g: Config, s: Net, n: nat, m: nat)
    requires |g.files| == |g.ids| && s == Init(g) && n <= |g.files|
    ensures TotalNeed(g, s, Everybody(g), n, m) == TotalWanted(g, n, m)
    decreases |g.files| - n
  {
    if n < |g.files| {
      NeedAtStart(g, s, n + 1, m);
      assert KnownAddresses(s.nodes[n].pool) == {};
      assert Need(g, s.nodes[n], n, m) == Wanted(g, n, m);
    }
  }

  lemma RoomAtStart(g: Config, m: nat, r: nat)
    requires m < |g.ids| && r <= MAX_CLIENTS
    ensures HasRoom(true, Init(g), m, r)
  {
    assert Servers.StartedSet(Init(g).hosts[m].srv.tasks.started) == {};
  }

  lemma FittingFilesMesh(g: Config) returns (t: Net)
    requires ConfigOk(g) && FilesFit(g) && AllServed(g, Everybody(g))
    requires forall n | 0 <= n < |g.ids| :: LinesFit(g.files[n])
    ensures Reachable(g, t) && Complete(g, t)
  {
    var s := Init(g);
    InitInv(g);
    ReachesItself(Step(g), s);
    forall m | 0 <= m < |g.ids|
      ensures RoomOn(true, g, s, Everybody(g), 0, m)
    {
      NeedAtStart(g, s, 0, m);
      RoomAtStart(g, m, TotalNeed(g, s, Everybody(g), 0, m));
    }
    t := RestMeshes(true, g, s, s, Everybody(g), 0);
    FromInv(g, s, t);
    forall n: nat, k: nat | n < |g.ids| && k < MAX_CLIENTS && t.nodes[n].pool[k].open
      ensures SlotAttended(t, n, k)
    {
      assert SlotInv(g, t, n, k);
    }
  }

  // ---- when there can be none ----

  /** The node at the other end of the connection an attended server slot is on. */
  ghost function SeatClient(s: Net, m: nat, k: nat): Option<nat> {
    if m < |s.hosts| && SeatOf(s.hosts[m], k).Some? && SeatOf(s.hosts[m], k).value < |s.conns|
       && Attended(s.hosts[m].srv, k) then
      Some(s.conns[SeatOf(s.hosts[m], k).value].client)
    else None
  }

  /** The attended slots of server m that are on connections of node n. */
  ghost function SeatsOf(s: Net, m: nat, n: nat): set<nat> {
    set k: nat | k < MAX_CLIENTS && SeatClient(s, m, k) == Some(n)
  }

  /** Those that are on connections of the nodes from n on. */
  ghost function SeatsFrom(s: Net, m: nat, n: nat): set<nat> {
    set k: nat | k < MAX_CLIENTS && SeatClient(s, m, k).Some? && SeatClient(s, m, k).value >= n
  }

  /** The endpoint of the client slot at the other end of a server slot's connection. */
  ghost function AddressBehind(s: Net, m: nat, k: nat, n: nat): (string, U16) {
    if SeatClient(s, m, k) == Some(n) && n < |s.nodes| && s.conns[SeatOf(s.hosts[m], k).value].slot < MAX_CLIENTS then
      SlotAddress(s.nodes[n].pool[s.conns[SeatOf(s.hosts[m], k).value].slot])
    else ("", 0)
  }

  ghost function AddressesBehind(s: Net, m: nat, seats: set<nat>, n: nat): set<(string, U16)> {
    set k | k in seats :: AddressBehind(s, m, k, n)
  }

  lemma {:induction false} AddressesBehindCount(s: Net, m: nat, seats: set<nat>, n: nat)
    ensures |AddressesBehind(s, m, seats, n)| <= |seats|
    decreases seats
  {
    if seats == {} {
      assert AddressesBehind(s, m, seats, n) == {};
    } else {
      var k :| k in seats;
      AddressesBehindCount(s, m, seats - {k}, n);
      assert AddressesBehind(s, m, seats, n) == AddressesBehind(s, m, seats - {k}, n) + {AddressBehind(s, m, k, n)};
    }
  }

  lemma WantedHasSlot(g: Config, s: Net, n: nat, m: nat, at: (string, U16)) returns (x: nat)
    requires n < |s.nodes| && n < |g.files| && FullMesh(s.nodes[n].pool, g.files[n]) && at in Wanted(g, n, m)
    ensures x < MAX_CLIENTS && s.nodes[n].pool[x].open && SlotAddress(s.nodes[n].pool[x]) == at
  {
    var i :| 0 <= i < |g.files[n]| && g.files[n][i].Endpoint? && Address(g.files[n][i]) == at;
    assert OneSlotFor(s.nodes[n].pool, g.files[n][i]);
    x :| IsSlotFor(s.nodes[n].pool, g.files[n][i], x);
  }

  /** Behind the seat of an attended connection is its client slot's endpoint. */
  lemma AttendedHasSeat(g: Config, s: Net, n: nat, m: nat, x: nat, c: nat)
    requires n < |s.nodes| && x < MAX_CLIENTS && s.nodes[n].pool[x].open && SlotInv(g, s, n, x)
    requires LinkOf(s, n, x) == Some(c) && Alive(s, c) && s.conns[c].server == m
    ensures SlotAddress(s.nodes[n].pool[x]) in AddressesBehind(s, m, SeatsOf(s, m, n), n)
  {
    var k: nat :| SeatOf(s.hosts[m], k) == Some(c) && Attended(s.hosts[m].srv, k);
    assert SeatClient(s, m, k) == Some(n);
    assert AddressBehind(s, m, k, n) == SlotAddress(s.nodes[n].pool[x]);
  }

  /** In an attended mesh every endpoint a node wants of server m is behind some slot of server m. */
  lemma WantedHasSeat(g: Config, s: Net, n: nat, m: nat, at: (string, U16))
    requires ConfigOk(g) && Inv(g, s) && Complete(g, s) && n < |g.ids| && at in Wanted(g, n, m)
    ensures at in AddressesBehind(s, m, SeatsOf(s, m, n), n)
  {
    assert MeshedById(g, s, n);
    var x := WantedHasSlot(g, s, n, m, at);
    assert SlotInv(g, s, n, x) && SlotAttended(s, n, x);
    AttendedHasSeat(g, s, n, m, x, LinkOf(s, n, x).value);
  }

  lemma WantedWithinSeats(g: Config, s: Net, n: nat, m: nat)
    requires ConfigOk(g) && Inv(g, s) && Complete(g, s) && n < |g.ids|
    ensures |Wanted(g, n, m)| <= |SeatsOf(s, m, n)|
  {
    forall at | at in Wanted(g, n, m)
      ensures at in AddressesBehind(s, m, SeatsOf(s, m, n), n)
    {
      WantedHasSeat(g, s, n, m, at);
    }
    AddressesBehindCount(s, m, SeatsOf(s, m, n), n);
    SubsetSize(Wanted(g, n, m), AddressesBehind(s, m, SeatsOf(s, m, n), n));
  }

  lemma SeatsSplit(s: Net, m: nat, n: nat)
    ensures |SeatsFrom(s, m, n)| == |SeatsOf(s, m, n)| + |SeatsFrom(s, m, n + 1)|
  {
    assert SeatsFrom(s, m, n) == SeatsOf(s, m, n) + SeatsFrom(s, m, n + 1);
    assert SeatsOf(s, m, n) !! SeatsFrom(s, m, n + 1);
  }

  lemma {:induction false} TotalWithinSeats(g: Config, s: Net, n: nat, m: nat)
    requires n <= |g.files| && forall i: nat | i < |g.files| :: |Wanted(g, i, m)| <= |SeatsOf(s, m, i)|
    ensures TotalWanted(g, n, m) <= |SeatsFrom(s, m, n)|
    decreases |g.files| - n
  {
    if n < |g.files| {
      TotalWithinSeats(g, s, n + 1, m);
      SeatsSplit(s, m, n);
    }
  }

  lemma WantedWithinAttended(g: Config, s: Net, m: nat)
    requires ConfigOk(g) && Inv(g, s) && Complete(g, s)
    ensures TotalWanted(g, 0, m) <= |SeatsFrom(s, m, 0)|
  {
    forall i: nat | i < |g.files|
      ensures |Wanted(g, i, m)| <= |SeatsOf(s, m, i)|
    {
      WantedWithinSeats(g, s, i, m);
    }
    TotalWithinSeats(g, s, 0, m);
  }

  /** The network can come, from the start, to a full mesh in which every connection is attended, so that everything
      sent over it can arrive, exactly if every file is served and no server is asked for more than MAX_CLIENTS
      connections. */
  lemma AttendedMeshIff(g: Config)
    requires ConfigOk(g) && forall n | 0 <= n < |g.ids| :: LinesFit(g.files[n])
    ensures (exists t :: Reachable(g, t) && Complete(g, t)) <==> AllServed(g, Everybody(g)) && FilesFit(g)
  {
    if AllServed(g, Everybody(g)) && FilesFit(g) {
      var t := FittingFilesMesh(g);
    }
    if t :| Reachable(g, t) && Complete(g, t) {
      ReachesItself(Step(g), Init(g));
      ReachesItself(Step(g), t);
      ComesInv(g, t, t);
      forall n: nat | n in Everybody(g) && n < |g.ids| && n < |g.files|
        ensures FileServed(g, n)
      {
        MeshIsServed(g, t, n);
      }
      forall m | 0 <= m < |g.ids|
        ensures TotalWanted(g, 0, m) <= MAX_CLIENTS
      {
        WantedWithinAttended(g, t, m);
        BelowCount(MAX_CLIENTS, SeatsFrom(t, m, 0));
      }
    }
  }

  // ---- from any other state ----

  ghost function AttendedSlots(v: Srv.State): set<nat> {
    set k: nat | k < MAX_CLIENTS && Attended(v, k)
  }

  /** Every attended slot takes a place that is not lost. */
  lemma AttendedWithinPlaces(v: Srv.State)
    requires Srv.Inv(v) && !v.stopped
    ensures |AttendedSlots(v)| + Room.Lost(v) <= MAX_CLIENTS
  {
    var awaited := v.accept.Ready? && Servers.FirstUnstarted(v.tasks.started, 0) < MAX_TASKS;
    var expected := if awaited then {v.accept.k} else {};
    forall k | k in AttendedSlots(v)
      ensures k in Srv.ReaderSlots(v.threads) + expected
    {
      if j: nat :| ReadsSlot(v, j, k) {
        assert v.threads[j].k in Srv.ReaderSlots(v.threads);
      }
    }
    Srv.ReaderSlotsCount(v.threads);
    SubsetSize(AttendedSlots(v), Srv.ReaderSlots(v.threads) + expected);
  }

  /** What server m has lost stays lost until it is stopped. */
  lemma LostInTheNetwork(g: Config, s: Net, t: Net, m: nat)
    requires ConfigOk(g) && Inv(g, s) && From(g, s, t) && m < |s.hosts|
    ensures m < |t.hosts| && Inv(g, t)
    ensures !t.hosts[m].srv.stopped ==> Room.Lost(t.hosts[m].srv) >= Room.Lost(s.hosts[m].srv)
  {
    var lost := Room.Lost(s.hosts[m].srv);
    var inv := (x: Net) =>
      Inv(g, x) && m < |x.hosts| && (!x.hosts[m].srv.stopped ==> Room.Lost(x.hosts[m].srv) >= lost);
    forall x: Net, a | inv(x) && Step(g)(x, a).Some?
      ensures inv(Step(g)(x, a).value)
    {
      StepKeepsInv(g, x, a);
      assert HostOk(m, x.hosts[m], x.conns);
      LostStaysHere(g, x, a, m);
    }
    InvariantHolds(Step(g), inv, s, t);
  }

  lemma LostStaysInStep(v: Srv.State, b: Srv.Action)
    requires Srv.Inv(v) && Srv.CanDo(v, b)
    ensures !Srv.Do(v, b).stopped ==> !v.stopped && Room.Lost(Srv.Do(v, b)) >= Room.Lost(v)
  {
    if !v.stopped && !b.Stop? {
      Room.StepKeepsLost(v, b);
    }
  }

  lemma LostStaysHere(g: Config, x: Net, a: Action, m: nat)
    requires CanDo(g, x, a) && m < |x.hosts| && Srv.Inv(x.hosts[m].srv)
    ensures m < |Do(g, x, a).hosts|
    ensures !Do(g, x, a).hosts[m].srv.stopped ==>
              !x.hosts[m].srv.stopped && Room.Lost(Do(g, x, a).hosts[m].srv) >= Room.Lost(x.hosts[m].srv)
  {
    if OfServer(a) && a.m == m {
      ServerActionDone(g, x, a);
      LostStaysInStep(x.hosts[m].srv, ServerAction(x, a));
    } else {
      OthersLeaveHost(g, x, m, a);
    }
  }

  /** From no state can the network come to such a mesh, before a server is stopped, unless that server's lost places
      and what it is asked for are MAX_CLIENTS together at most. */
  lemma CompleteNeedsPlaces(g: Config, s: Net, t: Net, m: nat)
    requires ConfigOk(g) && Reachable(g, s) && From(g, s, t) && Complete(g, t) && m < |g.ids| && m < |s.hosts|
    requires m < |t.hosts| && !t.hosts[m].srv.stopped
    ensures TotalWanted(g, 0, m) + Room.Lost(s.hosts[m].srv) <= MAX_CLIENTS
  {
    ReachableInv(g, s);
    LostInTheNetwork(g, s, t, m);
    assert HostOk(m, t.hosts[m], t.conns);
    WantedWithinAttended(g, t, m);
    SubsetSize(SeatsFrom(t, m, 0), AttendedSlots(t.hosts[m].srv));
    AttendedWithinPlaces(t.hosts[m].srv);
  }
}
