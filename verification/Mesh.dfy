/** The full mesh of a node by device ID: what its connection task can reach when the servers have room. */
module Mesh {
  import opened SwarmTypes
  import opened Collections
  import opened HostFile
  import opened ClientPool
  import opened ParseBuffer
  import opened OpenTask
  import opened Hosts
  import opened Network
  import opened NetworkSafety
  import opened Joining
  import opened Completion
  import opened Arrival
  import opened Transitions
  import Runs = ClientRuns
  import Srv = ServerRuns
  import Paths = ServerPaths
  import Room = ServerRoom
  import Servers = ServerPool

  // ---- room on a server ----

  /** Server m can be joined r times more: it lasts, or it can lose r places more. */
  ghost predicate HasPlaces(s: Net, m: nat, r: nat) {
    r > 0 ==>
      || Lasting(s, m)
      || (m < |s.hosts| && !s.hosts[m].srv.stopped && Room.Lost(s.hosts[m].srv) + r <= MAX_CLIENTS)
  }

  ghost predicate NobodyWaits(conns: seq<Conn>, m: nat) {
    forall c | 0 <= c < |conns| && conns[c].server == m :: conns[c].accepted
  }

  /** Server m is at the top of its accept loop with nobody waiting, and has r places and r pool entries left, so that
      r clients can join it without anybody leaving. */
  ghost predicate HasQuietRoom(s: Net, m: nat, r: nat) {
    r > 0 ==>
      && m < |s.hosts| && NobodyWaits(s.conns, m)
      && var v := s.hosts[m].srv;
      && v.protocol && !v.stopped && v.accept.Top?
      && v.server.count + r <= MAX_CLIENTS && |Servers.StartedSet(v.tasks.started)| + r <= MAX_TASKS
  }

  ghost predicate HasRoom(quiet: bool, s: Net, m: nat, r: nat) {
    if quiet then HasQuietRoom(s, m, r) else HasPlaces(s, m, r)
  }

  lemma RoomWelcomes(g: Config, s: Net, m: nat, r: nat)
    requires |g.files| == |g.ids| && Inv(g, s) && HasQuietRoom(s, m, r) && r > 0
    ensures Welcoming(s, m)
  {
    assert HostOk(m, s.hosts[m], s.conns);
    var v := s.hosts[m].srv;
    Srv.RoomMeansClosedSlot(v);
    if Servers.FirstUnstarted(v.tasks.started, 0) == MAX_TASKS {
      AllBelow(MAX_TASKS, Servers.StartedSet(v.tasks.started));
    }
  }

  /** One place less on server m at the most, and none less elsewhere. */
  ghost predicate OnePlaceLess(quiet: bool, s: Net, t: Net, m: nat) {
    forall i: nat, r: nat | HasRoom(quiet, s, i, if i == m then r + 1 else r) :: HasRoom(quiet, t, i, r)
  }

  lemma JoiningTakesOnePlace(g: Config, s: Net, n: nat, k: nat, m: nat)
    requires n < |s.nodes| && n < |g.ids| && m < |g.ids| && k < MAX_CLIENTS && Welcoming(s, m)
    ensures OnePlaceLess(true, s, JoinedNet(g, s, n, k, m), m)
  {
    var tasks := s.hosts[m].srv.tasks;
    Servers.StartedSetUpdate(tasks.started, Servers.FirstUnstarted(tasks.started, 0), true);
  }

  lemma CompletingTakesOnePlace(g: Config, s: Net, t: Net, n: nat, k: nat, m: nat)
    requires JoinsOnly(g, s, t, n, k, m) && !t.hosts[m].srv.stopped
    requires Lasting(t, m) || (!Lasting(s, m) && Room.Lost(t.hosts[m].srv) <= Room.Lost(s.hosts[m].srv) + 1)
    ensures OnePlaceLess(false, s, t, m)
  {
  }

  // ---- what stays attended ----

  /** Every connection that was attended still is, and so is every new one. */
  ghost predicate KeepsAttended(s: Net, t: Net) {
    && |s.conns| <= |t.conns|
    && (forall c: nat | c < |s.conns| && Alive(s, c) :: Alive(t, c))
    && (forall c: nat | |s.conns| <= c < |t.conns| :: Alive(t, c))
  }

  ghost predicate StopsNobody(s: Net, t: Net) {
    |t.hosts| == |s.hosts| && forall m | 0 <= m < |s.hosts| && t.hosts[m].srv.stopped :: s.hosts[m].srv.stopped
  }

  /** What the runs of this module keep. */
  ghost predicate Kept(quiet: bool, s: Net, t: Net) {
    StopsNobody(s, t) && (quiet ==> KeepsAttended(s, t))
  }

  lemma KeptOn(quiet: bool, s: Net, t: Net, u: Net)
    requires Kept(quiet, s, t) && Kept(quiet, t, u)
    ensures Kept(quiet, s, u)
  {
  }

  lemma KeptBeside(quiet: bool, s: Net, t: Net)
    requires t.hosts == s.hosts && t.conns == s.conns
    ensures Kept(quiet, s, t)
  {
  }

  /** A welcomed client's connection has a reader, and the other connections keep theirs. */
  lemma WelcomingAttends(h: Host, id: U32, c: nat, h': Host)
    requires Srv.Inv(h.srv) && h.srv.accept.Top? && |h.joined| == h.srv.issued
    requires Servers.FirstClosed(h.srv.server.slots, 0) < MAX_CLIENTS
    requires Servers.FirstUnstarted(h.srv.tasks.started, 0) < MAX_TASKS
    requires h' == Host(Paths.Welcomed(h.srv, id), h.joined + [c], h.held)
    ensures var k := Servers.FirstClosed(h.srv.server.slots, 0);
            SeatOf(h', k) == Some(c) && Attended(h'.srv, k)
    ensures forall k: nat | SeatOf(h, k).Some? && Attended(h.srv, k) ::
              SeatOf(h', k) == SeatOf(h, k) && Attended(h'.srv, k)
  {
    var (k0, j0) := (Servers.FirstClosed(h.srv.server.slots, 0), Servers.FirstUnstarted(h.srv.tasks.started, 0));
    assert ReadsSlot(h'.srv, j0, k0);
    forall k: nat | SeatOf(h, k).Some? && Attended(h.srv, k)
      ensures SeatOf(h', k) == SeatOf(h, k) && Attended(h'.srv, k)
    {
      var j: nat :| ReadsSlot(h.srv, j, k);
      assert ReadsSlot(h'.srv, j, k);
    }
  }

  lemma JoiningAttends(g: Config, s: Net, n: nat, k: nat, m: nat)
    requires |g.files| == |g.ids| && Inv(g, s) && n < |g.ids| && m < |g.ids| && k < MAX_CLIENTS && Welcoming(s, m)
    ensures KeepsAttended(s, JoinedNet(g, s, n, k, m))
  {
    var t := JoinedNet(g, s, n, k, m);
    assert HostOk(m, s.hosts[m], s.conns);
    WelcomingAttends(s.hosts[m], g.ids[n], |s.conns|, t.hosts[m]);
    forall c: nat | c < |s.conns| && Alive(s, c)
      ensures Alive(t, c)
    {
      var h := s.hosts[s.conns[c].server];
      var x: nat :| SeatOf(h, x) == Some(c) && Attended(h.srv, x);
      assert SeatOf(t.hosts[s.conns[c].server], x) == Some(c);
    }
  }

  // ---- what a node still needs ----

  /** Somebody listens at every endpoint of the file, of which there are no more than there are sockets and which the
      driver tells apart. */
  ghost predicate FileServed(g: Config, n: nat)
    requires n < |g.files|
  {
    && |FileKeys(g.files[n])| <= MAX_CLIENTS && KeysTellApart(g.files[n])
    && forall i | 0 <= i < |g.files[n]| && g.files[n][i].Endpoint? :: Address(g.files[n][i]) in g.listens
  }

  /** The endpoints of the slots whose handshake is done. */
  ghost function KnownAddresses(p: seq<ClientPool.Slot>): set<(string, U16)> {
    set k | 0 <= k < |p| && p[k].open && p[k].id != 0 :: SlotAddress(p[k])
  }

  /** The endpoints in node n's file that lead to server m. */
  ghost function Wanted(g: Config, n: nat, m: nat): set<(string, U16)>
    requires n < |g.files|
  {
    set a | a in FileAddresses(g.files[n]) && a in g.listens && g.listens[a] == m
  }

  /** Those of them that are not connected. */
  ghost function Need(g: Config, node: Runs.State, n: nat, m: nat): set<(string, U16)>
    requires n < |g.files|
  {
    set a | a in Wanted(g, n, m) && a !in KnownAddresses(node.pool)
  }

  lemma NeedShrinks(g: Config, a: Runs.State, b: Runs.State, n: nat, m: nat)
    requires n < |g.files| && KnownAddresses(a.pool) <= KnownAddresses(b.pool)
    ensures Need(g, b, n, m) <= Need(g, a, n, m) && |Need(g, b, n, m)| <= |Need(g, a, n, m)|
  {
    SubsetSize(Need(g, b, n, m), Need(g, a, n, m));
  }

  /** Every server has room for what node n needs of it, and for as many more as `extra` says. */
  ghost predicate Roomy(quiet: bool, g: Config, s: Net, n: nat, extra: seq<nat>) {
    && n < |s.nodes| && n < |g.files| && |extra| == |g.ids|
    && forall m | 0 <= m < |g.ids| :: RoomyOn(quiet, g, s, n, extra, m)
  }

  ghost predicate RoomyOn(quiet: bool, g: Config, s: Net, n: nat, extra: seq<nat>, m: nat)
    requires n < |s.nodes| && n < |g.files| && m < |extra|
  {
    HasRoom(quiet, s, m, |Need(g, s.nodes[n], n, m)| + extra[m])
  }

  /** Node n moved by itself and needs no more than before. */
  lemma RoomyStays(quiet: bool, g: Config, s: Net, t: Net, n: nat, extra: seq<nat>)
    requires Roomy(quiet, g, s, n, extra) && t.hosts == s.hosts && t.conns == s.conns && |t.nodes| == |s.nodes|
    requires KnownAddresses(s.nodes[n].pool) <= KnownAddresses(t.nodes[n].pool)
    ensures Roomy(quiet, g, t, n, extra)
  {
    forall m | 0 <= m < |g.ids|
      ensures RoomyOn(quiet, g, t, n, extra, m)
    {
      NeedShrinks(g, s.nodes[n], t.nodes[n], n, m);
      assert RoomyOn(quiet, g, s, n, extra, m);
    }
  }

  /** Node n joined server m, at an endpoint that it needed. */
  lemma RoomyAfterJoin(quiet: bool, g: Config, s: Net, t: Net, n: nat, m: nat, at: (string, U16), extra: seq<nat>)
    requires Roomy(quiet, g, s, n, extra) && OnePlaceLess(quiet, s, t, m) && |t.nodes| == |s.nodes| && m < |g.ids|
    requires KnownAddresses(s.nodes[n].pool) <= KnownAddresses(t.nodes[n].pool)
    requires at in Need(g, s.nodes[n], n, m) && at in KnownAddresses(t.nodes[n].pool)
    ensures Roomy(quiet, g, t, n, extra)
  {
    forall l | 0 <= l < |g.ids|
      ensures RoomyOn(quiet, g, t, n, extra, l)
    {
      NeedAfterJoin(g, s.nodes[n], t.nodes[n], n, l, at);
      assert RoomyOn(quiet, g, s, n, extra, l);
      LessRoom(quiet, s, l, |Need(g, s.nodes[n], n, l)| + extra[l],
               |Need(g, t.nodes[n], n, l)| + extra[l] + if l == m then 1 else 0);
    }
  }

  lemma NeedAfterJoin(g: Config, a: Runs.State, b: Runs.State, n: nat, l: nat, at: (string, U16))
    requires n < |g.files| && KnownAddresses(a.pool) <= KnownAddresses(b.pool) && at in KnownAddresses(b.pool)
    ensures |Need(g, b, n, l)| + (if at in Need(g, a, n, l) then 1 else 0) <= |Need(g, a, n, l)|
  {
    SubsetSize(Need(g, b, n, l), Need(g, a, n, l) - {at});
  }

  lemma LessRoom(quiet: bool, s: Net, m: nat, r: nat, less: nat)
    requires HasRoom(quiet, s, m, r) && less <= r
    ensures HasRoom(quiet, s, m, less)
  {
  }

  // ---- what a node has from its file ----

  /** The step of its connection task that a client's action is to its node, if it is one. */
  function OpeningStep(s: Net, a: Action): Option<Runs.Action>
    requires a.RecvIdOn? ==> a.n < |s.nodes| && s.nodes[a.n].opening.ReceivingId? && NextDown(s, a.n).Some?
  {
    match a
    case Local(_, step) => Some(step)
    case ConnectTo(_) => Some(Runs.Connect(true))
    case SendIdOn(_, sent, _) => Some(Runs.SendId(sent))
    case RecvIdOn(n, junk) => Some(Runs.RecvId(Some(ReceivedInto(junk, NextDown(s, n).value))))
    case _ => None
  }

  lemma OpeningStepDone(g: Config, s: Net, a: Action)
    requires CanDo(g, s, a) && !OfServer(a)
    ensures var (n, step) := (a.n, OpeningStep(s, a));
            && n < |s.nodes| && n < |g.files| && |Do(g, s, a).nodes| == |s.nodes|
            && (forall i | 0 <= i < |s.nodes| && i != n :: Do(g, s, a).nodes[i] == s.nodes[i])
            && if step.Some? then
                 && Runs.CanDo(g.files[n], s.nodes[n], step.value)
                 && Do(g, s, a).nodes[n] == Runs.Do(g.files[n], s.nodes[n], step.value)
               else
                 Do(g, s, a).nodes[n] == s.nodes[n].(sending := Do(g, s, a).nodes[n].sending)
  {
  }

  lemma ClientStepKeepsFile(g: Config, s: Net, a: Action, n: nat)
    requires CanDo(g, s, a) && !OfServer(a) && n < |s.nodes| && n < |g.files|
    requires Runs.Inv(s.nodes[n]) && Runs.FileInv(g.files[n], s.nodes[n])
    ensures n < |Do(g, s, a).nodes| && Runs.FileInv(g.files[n], Do(g, s, a).nodes[n])
  {
    OpeningStepDone(g, s, a);
    if a.n == n && OpeningStep(s, a).Some? {
      Runs.StepKeepsFile(g.files[n], s.nodes[n], OpeningStep(s, a).value);
    }
  }

  ghost predicate FilesInv(g: Config, s: Net)
    requires |g.files| == |g.ids|
  {
    |s.nodes| == |g.ids| && forall n | 0 <= n < |g.ids| :: Runs.FileInv(g.files[n], s.nodes[n])
  }

  lemma ServerStepKeepsFiles(g: Config, s: Net, a: Action)
    requires |g.files| == |g.ids| && FilesInv(g, s) && CanDo(g, s, a) && OfServer(a)
    ensures FilesInv(g, Do(g, s, a))
  {
    assert Do(g, s, a).nodes == s.nodes;
  }

  lemma StepKeepsFiles(g: Config, s: Net, a: Action)
    requires |g.files| == |g.ids| && Nodes(s) && FilesInv(g, s) && CanDo(g, s, a)
    ensures FilesInv(g, Do(g, s, a))
  {
    if OfServer(a) {
      ServerStepKeepsFiles(g, s, a);
    } else {
      OpeningStepDone(g, s, a);
      forall n | 0 <= n < |g.ids|
        ensures Runs.FileInv(g.files[n], Do(g, s, a).nodes[n])
      {
        assert Runs.Inv(s.nodes[n]);
        ClientStepKeepsFile(g, s, a, n);
      }
    }
  }

  /** The network can get to s0, and from there to s. */
  ghost predicate Comes(g: Config, s0: Net, s: Net) {
    Reachable(g, s0) && From(g, s0, s)
  }

  lemma ComesInv(g: Config, s0: Net, s: Net)
    requires ConfigOk(g) && Comes(g, s0, s)
    ensures Inv(g, s0) && Inv(g, s) && FilesInv(g, s)
  {
    ReachableInv(g, s0);
    ReachesOn(Step(g), Init(g), s0, s);
    InitInv(g);
    assert KnownAddresses(Runs.Init().pool) == {} && OpenAddresses(Runs.Init().pool) == {};
    var inv := (x: Net) => Inv(g, x) && FilesInv(g, x);
    forall x: Net, a | inv(x) && Step(g)(x, a).Some?
      ensures inv(Step(g)(x, a).value)
    {
      StepKeepsInv(g, x, a);
      StepKeepsFiles(g, x, a);
    }
    InvariantHolds(Step(g), inv, Init(g), s);
  }

  // ---- one line ----

  function AtNode(s: Net, n: nat, node: Runs.State): Net
    requires n < |s.nodes|
  {
    s.(nodes := s.nodes[n := node])
  }

  /** Node n, by now at `node`, takes a step by itself. */
  lemma GoLocally(g: Config, s0: Net, s: Net, n: nat, node: Runs.State, step: Runs.Action) returns (next: Runs.State)
    requires n < |s.nodes| && From(g, s0, AtNode(s, n, node))
    requires IsLocal(step) && NodeCan(g, AtNode(s, n, node), n, step)
    ensures From(g, s0, AtNode(s, n, next)) && next == Runs.Do(g.files[n], node, step)
  {
    next := Runs.Do(g.files[n], node, step);
    Go(g, s0, AtNode(s, n, node), Local(n, step));
    assert s.nodes[n := node][n := next] == s.nodes[n := next];
  }

  lemma AtItself(s: Net, n: nat)
    requires n < |s.nodes|
    ensures AtNode(s, n, s.nodes[n]) == s
  {
  }

  /** The line is checked, and a slot picked for it and given its endpoint. */
  lemma FetchedPicks(g: Config, s0: Net, s: Net, n: nat, fetched: Runs.State) returns (node: Runs.State)
    requires |g.files| == |g.ids| && Sized(g, s) && n < |g.ids| && From(g, s0, AtNode(s, n, fetched))
    requires fetched.opening.Checking? && fetched.opening.line.Endpoint?
    ensures From(g, s0, AtNode(s, n, node)) && node.sending == fetched.sending
    ensures var (line, k) := (fetched.opening.line, FirstClosed(fetched.pool, 0));
            if !ConnectedToHost(fetched.pool, fetched.buf, ToU16(line.port)) && k < MAX_CLIENTS then
              node == fetched.(
                pool := fetched.pool[k := fetched.pool[k].(host := CString(fetched.buf), port := ToU16(line.port))],
                opening := Runs.Connecting(k))
            else node == fetched.(opening := Runs.Reading)
  {
    node := GoLocally(g, s0, s, n, fetched, Runs.CheckHost);
    if node.opening.Picking? {
      node := GoLocally(g, s0, s, n, node, Runs.Pick);
      if node.opening.Hosting? {
        node := GoLocally(g, s0, s, n, node, Runs.SetHost);
      }
    }
  }

  /** Setting a slot that is not known loses no endpoint, and gains the slot's if it is known then. */
  lemma KnownGrow(p: ClientPool.Pool, k: nat, slot: ClientPool.Slot)
    requires k < MAX_CLIENTS && !(p[k].open && p[k].id != 0)
    ensures KnownAddresses(p) <= KnownAddresses(p[k := slot])
    ensures slot.open && slot.id != 0 ==> SlotAddress(slot) in KnownAddresses(p[k := slot])
  {
    var q := p[k := slot];
    assert q[k] == slot;
    assert forall i | 0 <= i < |p| && p[i].open && p[i].id != 0 :: q[i] == p[i];
  }

  lemma KnownStay(p: ClientPool.Pool, q: ClientPool.Pool)
    requires forall k | 0 <= k < MAX_CLIENTS && p[k].id != 0 :: q[k] == p[k]
    ensures KnownAddresses(p) <= KnownAddresses(q)
  {
    assert forall k | 0 <= k < |p| && p[k].open && p[k].id != 0 :: q[k] == p[k];
  }

  /** The attempt at an endpoint with room goes through, quietly. */
  lemma RoomJoinsQuietly(g: Config, s0: Net, s: Net, n: nat, k: nat, m: nat, r: nat) returns (t: Net)
    requires |g.files| == |g.ids| && From(g, s0, s) && Calls(g, s, n, k, m) && m < |g.ids|
    requires HasQuietRoom(s, m, r) && r > 0 && Inv(g, s)
    ensures From(g, s0, t) && JoinsOnly(g, s, t, n, k, m) && OnePlaceLess(true, s, t, m) && Kept(true, s, t)
  {
    RoomWelcomes(g, s, m, r);
    JoinedAreIssued(g, s, m);
    HandshakeSteps(g, s0, s, n, k, m);
    t := JoinedNet(g, s, n, k, m);
    JoiningTakesOnePlace(g, s, n, k, m);
    JoiningAttends(g, s, n, k, m);
  }

  /** Or by whatever means. */
  lemma RoomJoinsAnyhow(g: Config, s0: Net, s: Net, n: nat, k: nat, m: nat, r: nat) returns (t: Net)
    requires ConfigOk(g) && Inv(g, s0) && From(g, s0, s) && Calls(g, s, n, k, m) && m < |g.ids|
    requires HasPlaces(s, m, r) && r > 0
    ensures From(g, s0, t) && JoinsOnly(g, s, t, n, k, m) && OnePlaceLess(false, s, t, m) && Kept(false, s, t)
  {
    if Lasting(s, m) {
      t := AttemptLasts(g, s0, s, n, k, m);
    } else {
      t := AttemptCompletes(g, s0, s, n, k, m);
    }
    CompletingTakesOnePlace(g, s, t, n, k, m);
  }

  lemma RoomJoins(quiet: bool, g: Config, s0: Net, s: Net, n: nat, k: nat, m: nat, r: nat) returns (t: Net)
    requires ConfigOk(g) && Inv(g, s0) && From(g, s0, s) && Calls(g, s, n, k, m) && m < |g.ids|
    requires HasRoom(quiet, s, m, r) && r > 0 && Inv(g, s)
    ensures From(g, s0, t) && JoinsOnly(g, s, t, n, k, m) && OnePlaceLess(quiet, s, t, m) && Kept(quiet, s, t)
  {
    if quiet {
      t := RoomJoinsQuietly(g, s0, s, n, k, m, r);
    } else {
      t := RoomJoinsAnyhow(g, s0, s, n, k, m, r);
    }
  }

  /** Node n is about to connect slot k to an endpoint of its file that it needs. */
  ghost predicate Seeks(g: Config, s: Net, n: nat, k: nat, at: (string, U16)) {
    && n < |g.ids| && n < |g.files| && n < |s.nodes| && k < MAX_CLIENTS && at in FileAddresses(g.files[n])
    && s.nodes[n].opening == Runs.Connecting(k) && !s.nodes[n].pool[k].open
    && SlotAddress(s.nodes[n].pool[k]) == at && at !in KnownAddresses(s.nodes[n].pool)
  }

  lemma SoughtIsNeeded(g: Config, s: Net, n: nat, k: nat, at: (string, U16))
    requires Seeks(g, s, n, k, at) && FileServed(g, n)
    ensures at in g.listens
    ensures at in Need(g, s.nodes[n], n, g.listens[at]) && Calls(g, s, n, k, g.listens[at])
  {
    var i :| 0 <= i < |g.files[n]| && g.files[n][i].Endpoint? && Address(g.files[n][i]) == at;
  }

  lemma IdentifiedIsKnown(g: Config, node: Runs.State, k: nat, m: nat)
    requires ConfigOk(g) && k < MAX_CLIENTS && m < |g.ids| && !(node.pool[k].open && node.pool[k].id != 0)
    ensures var after := Identified(node, k, g.ids[m]).pool;
            KnownAddresses(node.pool) <= KnownAddresses(after) && SlotAddress(node.pool[k]) in KnownAddresses(after)
  {
    KnownGrow(node.pool, k, node.pool[k].(open := true, id := g.ids[m]));
  }

  /** The slot that was picked connects to the node that listens at its endpoint. */
  lemma PickedJoins(quiet: bool, g: Config, s0: Net, s: Net, n: nat, at: (string, U16), k: nat, extra: seq<nat>)
    returns (t: Net, m: nat)
    requires ConfigOk(g) && Inv(g, s0) && From(g, s0, s) && Seeks(g, s, n, k, at) && FileServed(g, n)
    requires Sized(g, s) && Roomy(quiet, g, s, n, extra)
    ensures From(g, s0, t) && Sized(g, t) && m < |g.ids| && Roomy(quiet, g, t, n, extra)
    ensures t.nodes == s.nodes[n := Identified(s.nodes[n], k, g.ids[m])] && Kept(quiet, s, t)
  {
    FromInv(g, s0, s);
    SoughtIsNeeded(g, s, n, k, at);
    m := g.listens[at];
    assert RoomyOn(quiet, g, s, n, extra, m);
    t := RoomJoins(quiet, g, s0, s, n, k, m, |Need(g, s.nodes[n], n, m)| + extra[m]);
    IdentifiedIsKnown(g, s.nodes[n], k, m);
    RoomyAfterJoin(quiet, g, s, t, n, m, at, extra);
  }

  // ---- the attempt in progress ----

  /** A step that ends it sooner: nobody but node n notices. */
  lemma EndingStep(g: Config, s0: Net, s: Net, n: nat) returns (node: Runs.State)
    requires From(g, s0, s) && |g.files| == |g.ids| && Sized(g, s) && n < |g.ids|
    requires Runs.Inv(s.nodes[n]) && !s.nodes[n].opening.Reading?
    ensures From(g, s0, AtNode(s, n, node)) && KnownAddresses(s.nodes[n].pool) <= KnownAddresses(node.pool)
    ensures Runs.Inv(node) && Runs.StepsLeft(node.opening) < Runs.StepsLeft(s.nodes[n].opening)
    ensures node == s.nodes[n].(pool := node.pool, opening := node.opening)
    ensures EndpointsUnique(s.nodes[n].pool) ==> EndpointsUnique(node.pool)
  {
    var before := s.nodes[n];
    var step := Runs.EarlyEnd(before.opening);
    Runs.EarlyEndStep(g.files[n], before);
    node := Runs.Do(g.files[n], before, step);
    KnownStay(before.pool, node.pool);
    if step.SendId? {
      Go(g, s0, s, SendIdOn(n, false, false));
      assert IdSent(g, s, n, false, false) == NodeDid(g, s, n, step);
    } else {
      AtItself(s, n);
      node := GoLocally(g, s0, s, n, before, step);
    }
  }

  /** Node n's connection task gets back to the top of its loop. */
  lemma {:induction false} AttemptEnds(g: Config, s0: Net, s: Net, n: nat) returns (node: Runs.State)
    requires From(g, s0, s) && |g.files| == |g.ids| && Sized(g, s) && n < |g.ids| && Runs.Inv(s.nodes[n])
    ensures From(g, s0, AtNode(s, n, node)) && node.opening.Reading?
    ensures node == s.nodes[n].(pool := node.pool, opening := node.opening)
    ensures KnownAddresses(s.nodes[n].pool) <= KnownAddresses(node.pool)
    ensures EndpointsUnique(s.nodes[n].pool) ==> EndpointsUnique(node.pool)
    decreases Runs.StepsLeft(s.nodes[n].opening)
  {
    if s.nodes[n].opening.Reading? {
      AtItself(s, n);
      node := s.nodes[n];
    } else {
      var next := EndingStep(g, s0, s, n);
      node := AttemptEnds(g, s0, AtNode(s, n, next), n);
      assert AtNode(AtNode(s, n, next), n, node) == AtNode(s, n, node);
    }
  }

  // ---- a line of the file ----

  /** Node n's connection task is at the top of its loop and has no key open twice. */
  ghost predicate Ready(g: Config, s: Net, n: nat) {
    Sized(g, s) && n < |s.nodes| && s.nodes[n].opening.Reading? && EndpointsUnique(s.nodes[n].pool)
  }

  /** Between attempts what is open is known. */
  lemma OpenAreKnown(g: Config, s: Net, n: nat)
    requires |g.files| == |g.ids| && Inv(g, s) && n < |s.nodes| && s.nodes[n].opening.Reading?
    ensures OpenAddresses(s.nodes[n].pool) <= KnownAddresses(s.nodes[n].pool)
  {
    forall x | x in OpenAddresses(s.nodes[n].pool)
      ensures x in KnownAddresses(s.nodes[n].pool)
    {
      var k :| 0 <= k < |s.nodes[n].pool| && s.nodes[n].pool[k].open && SlotAddress(s.nodes[n].pool[k]) == x;
      assert SlotInv(g, s, n, k);
    }
  }

  /** The next line of node n's file. */
  function NextLine(g: Config, s: Net, n: nat): Line
    requires n < |s.nodes| && n < |g.files| && |g.files[n]| > 0
  {
    g.files[n][Fetched(|g.files[n]|, s.nodes[n].cursor)]
  }

  /** A line that has no slot is not taken for connected, and finds a free slot. */
  lemma NewLineTries(lines: seq<Line>, node: Runs.State, i: nat)
    requires LinesFit(lines) && i < |lines| && lines[i].Endpoint? && Runs.FileInv(lines, node)
    requires EndpointsUnique(node.pool) && |FileKeys(lines)| <= MAX_CLIENTS && KeysTellApart(lines)
    requires Address(lines[i]) !in OpenAddresses(node.pool)
    ensures !ConnectedToHost(node.pool, Parsed(node.buf, lines[i]), ToU16(lines[i].port))
    ensures FirstClosed(node.pool, 0) < MAX_CLIENTS && LineKey(lines[i]) !in OpenKeys(node.pool)
    ensures CString(Parsed(node.buf, lines[i])) == lines[i].host
  {
    KeyMeansOpen(node.pool, lines, i);
    CheckIsSound(node.pool, node.buf, lines[i]);
    AddressesGiveKeys(node.pool, lines);
    FreeSlotExists(node.pool, FileKeys(lines), LineKey(lines[i]));
    WrittenIsCString(node.buf, lines[i].host);
  }

  /** Its slot, given the line's endpoint and later an ID, is the only one with its key. */
  lemma NewSlotIsUnique(p: ClientPool.Pool, k: nat, line: Line, slot: ClientPool.Slot)
    requires k < MAX_CLIENTS && EndpointsUnique(p) && line.Endpoint? && LineKey(line) !in OpenKeys(p)
    requires SlotAddress(slot) == Address(line)
    ensures EndpointsUnique(p[k := slot])
  {
    assert SlotKey(slot) == LineKey(line);
    UniqueUpdate(p, k, slot);
  }

  /** What node n is about to do with a line that has no slot. */
  ghost predicate PicksLine(before: Runs.State, line: Line, node: Runs.State) {
    var k := FirstClosed(before.pool, 0);
    && line.Endpoint? && k < MAX_CLIENTS && LineKey(line) !in OpenKeys(before.pool)
    && node.opening == Runs.Connecting(k)
    && node.pool == before.pool[k := before.pool[k].(host := line.host, port := ToU16(line.port))]
  }

  lemma NewLinePicks(g: Config, s0: Net, s: Net, n: nat) returns (node: Runs.State)
    requires ConfigOk(g) && Comes(g, s0, s) && n < |g.ids| && |g.files[n]| > 0 && LinesFit(g.files[n]) && Ready(g, s, n)
    requires |FileKeys(g.files[n])| <= MAX_CLIENTS && KeysTellApart(g.files[n])
    requires NextLine(g, s, n).Endpoint? && Address(NextLine(g, s, n)) !in KnownAddresses(s.nodes[n].pool)
    ensures From(g, s0, AtNode(s, n, node)) && PicksLine(s.nodes[n], NextLine(g, s, n), node)
    ensures node.sending == s.nodes[n].sending && node.cursor == Fetched(|g.files[n]|, s.nodes[n].cursor) + 1
  {
    ComesInv(g, s0, s);
    OpenAreKnown(g, s, n);
    var i := Fetched(|g.files[n]|, s.nodes[n].cursor);
    NewLineTries(g.files[n], s.nodes[n], i);
    AtItself(s, n);
    var fetched := GoLocally(g, s0, s, n, s.nodes[n], Runs.Fetch);
    node := FetchedPicks(g, s0, s, n, fetched);
  }

  lemma PickedSeeks(g: Config, s: Net, n: nat, i: nat, node: Runs.State)
    requires n < |g.ids| && n < |g.files| && n < |s.nodes| && i < |g.files[n]|
    requires PicksLine(s.nodes[n], g.files[n][i], node) && Runs.Inv(s.nodes[n])
    requires Address(g.files[n][i]) !in KnownAddresses(s.nodes[n].pool)
    ensures var k := FirstClosed(s.nodes[n].pool, 0);
            && k < MAX_CLIENTS && Seeks(g, AtNode(s, n, node), n, k, Address(g.files[n][i]))
            && KnownAddresses(s.nodes[n].pool) <= KnownAddresses(node.pool)
  {
    var (p, k) := (s.nodes[n].pool, FirstClosed(s.nodes[n].pool, 0));
    KnownGrow(p, k, node.pool[k]);
    assert forall j | 0 <= j < MAX_CLIENTS && node.pool[j].open :: node.pool[j] == p[j];
  }

  /** A line that has no slot gets one. */
  lemma NewLineGoes(quiet: bool, g: Config, s0: Net, s: Net, n: nat, extra: seq<nat>) returns (t: Net)
    requires ConfigOk(g) && Comes(g, s0, s) && n < |g.ids| && |g.files[n]| > 0 && LinesFit(g.files[n])
    requires FileServed(g, n) && Ready(g, s, n) && Roomy(quiet, g, s, n, extra)
    requires NextLine(g, s, n).Endpoint? && Address(NextLine(g, s, n)) !in KnownAddresses(s.nodes[n].pool)
    ensures From(g, s0, t) && Ready(g, t, n) && Roomy(quiet, g, t, n, extra) && LineDone(g, s, t, n)
    ensures Kept(quiet, s, t)
  {
    ComesInv(g, s0, s);
    var i := Fetched(|g.files[n]|, s.nodes[n].cursor);
    var (k, at) := (FirstClosed(s.nodes[n].pool, 0), Address(g.files[n][i]));
    var node := NewLinePicks(g, s0, s, n);
    PickedSeeks(g, s, n, i, node);
    var u := AtNode(s, n, node);
    RoomyStays(quiet, g, s, u, n, extra);
    var m;
    t, m := PickedJoins(quiet, g, s0, u, n, at, k, extra);
    KeptBeside(quiet, s, u);
    KeptOn(quiet, s, u, t);
    PickedIsDone(g, s, n, i, node, m);
  }

  lemma PickedIsDone(g: Config, s: Net, n: nat, i: nat, node: Runs.State, m: nat)
    requires ConfigOk(g) && n < |g.ids| && n < |s.nodes| && i < |g.files[n]| && m < |g.ids|
    requires PicksLine(s.nodes[n], g.files[n][i], node) && EndpointsUnique(s.nodes[n].pool)
    ensures var after := Identified(node, FirstClosed(s.nodes[n].pool, 0), g.ids[m]).pool;
            && EndpointsUnique(after) && KnownAddresses(s.nodes[n].pool) <= KnownAddresses(after)
            && Address(g.files[n][i]) in KnownAddresses(after)
  {
    var (p, k) := (s.nodes[n].pool, FirstClosed(s.nodes[n].pool, 0));
    var after := Identified(node, k, g.ids[m]).pool;
    assert after == p[k := after[k]];
    NewSlotIsUnique(p, k, g.files[n][i], after[k]);
    KnownGrow(p, k, after[k]);
  }

  /** Node n has gone on by one line, which has a slot now. */
  ghost predicate LineDone(g: Config, s: Net, t: Net, n: nat)
    requires n < |s.nodes| && n < |g.files| && |g.files[n]| > 0
  {
    && n < |t.nodes| && t.nodes == s.nodes[n := t.nodes[n]]
    && t.nodes[n].cursor == Fetched(|g.files[n]|, s.nodes[n].cursor) + 1
    && KnownAddresses(s.nodes[n].pool) <= KnownAddresses(t.nodes[n].pool)
    && (NextLine(g, s, n).Endpoint? ==> Address(NextLine(g, s, n)) in KnownAddresses(t.nodes[n].pool))
  }

  /** A line that has a slot, or is no endpoint, is passed over; if it is tried all the same the attempt fails. */
  lemma OldLineGoes(quiet: bool, g: Config, s0: Net, s: Net, n: nat, extra: seq<nat>) returns (t: Net)
    requires ConfigOk(g) && Comes(g, s0, s) && n < |g.ids| && |g.files[n]| > 0 && LinesFit(g.files[n])
    requires Ready(g, s, n) && Roomy(quiet, g, s, n, extra)
    requires NextLine(g, s, n).Endpoint? ==> Address(NextLine(g, s, n)) in KnownAddresses(s.nodes[n].pool)
    ensures From(g, s0, t) && Ready(g, t, n) && Roomy(quiet, g, t, n, extra) && LineDone(g, s, t, n)
    ensures Kept(quiet, s, t)
  {
    ComesInv(g, s0, s);
    AtItself(s, n);
    var fetched := GoLocally(g, s0, s, n, s.nodes[n], Runs.Fetch);
    var u := AtNode(s, n, fetched);
    Runs.StepKeepsInv(g.files[n], s.nodes[n], Runs.Fetch);
    var node := AttemptEnds(g, s0, u, n);
    t := AtNode(u, n, node);
    RoomyStays(quiet, g, s, t, n, extra);
    KeptBeside(quiet, s, t);
  }

  lemma LineGoes(quiet: bool, g: Config, s0: Net, s: Net, n: nat, extra: seq<nat>) returns (t: Net)
    requires ConfigOk(g) && Comes(g, s0, s) && n < |g.ids| && |g.files[n]| > 0 && LinesFit(g.files[n])
    requires FileServed(g, n) && Ready(g, s, n) && Roomy(quiet, g, s, n, extra)
    ensures From(g, s0, t) && Ready(g, t, n) && Roomy(quiet, g, t, n, extra) && LineDone(g, s, t, n)
    ensures Kept(quiet, s, t)
  {
    if NextLine(g, s, n).Endpoint? && Address(NextLine(g, s, n)) !in KnownAddresses(s.nodes[n].pool) {
      t := NewLineGoes(quiet, g, s0, s, n, extra);
    } else {
      t := OldLineGoes(quiet, g, s0, s, n, extra);
    }
  }

  // ---- a pass over the file ----

  /** The endpoints of the first r lines read from the cursor on. */
  ghost predicate ReadKnown(lines: seq<Line>, cursor: nat, r: nat, p: ClientPool.Pool)
    requires |lines| > 0
  {
    forall i: nat | i < r && lines[ReadAt(|lines|, cursor, i)].Endpoint? ::
      Address(lines[ReadAt(|lines|, cursor, i)]) in KnownAddresses(p)
  }

  lemma ReadKnownFirst(lines: seq<Line>, cursor: nat, r: nat, p: ClientPool.Pool)
    requires |lines| > 0 && r > 0 && ReadKnown(lines, Fetched(|lines|, cursor) + 1, r - 1, p)
    requires var line := lines[Fetched(|lines|, cursor)]; line.Endpoint? ==> Address(line) in KnownAddresses(p)
    ensures ReadKnown(lines, cursor, r, p)
  {
    forall i: nat | i < r && lines[ReadAt(|lines|, cursor, i)].Endpoint?
      ensures Address(lines[ReadAt(|lines|, cursor, i)]) in KnownAddresses(p)
    {
      if i > 0 {
        assert ReadAt(|lines|, cursor, i) == ReadAt(|lines|, Fetched(|lines|, cursor) + 1, i - 1);
      }
    }
  }

  lemma {:induction false} PassGoes(quiet: bool, g: Config, s0: Net, s: Net, n: nat, extra: seq<nat>, r: nat)
    returns (t: Net)
    requires ConfigOk(g) && Comes(g, s0, s) && n < |g.ids| && |g.files[n]| > 0 && LinesFit(g.files[n])
    requires FileServed(g, n) && Ready(g, s, n) && Roomy(quiet, g, s, n, extra)
    ensures From(g, s0, t) && Ready(g, t, n) && Roomy(quiet, g, t, n, extra) && t.nodes == s.nodes[n := t.nodes[n]]
    ensures KnownAddresses(s.nodes[n].pool) <= KnownAddresses(t.nodes[n].pool)
    ensures ReadKnown(g.files[n], s.nodes[n].cursor, r, t.nodes[n].pool) && Kept(quiet, s, t)
    decreases r
  {
    if r == 0 {
      t := s;
      KeptBeside(quiet, s, t);
    } else {
      var u := LineGoes(quiet, g, s0, s, n, extra);
      t := PassGoes(quiet, g, s0, u, n, extra, r - 1);
      LineThenPass(quiet, g, s, u, t, n, r);
    }
  }

  lemma LineThenPass(quiet: bool, g: Config, s: Net, u: Net, t: Net, n: nat, r: nat)
    requires n < |s.nodes| && n < |g.files| && |g.files[n]| > 0 && r > 0 && LineDone(g, s, u, n) && Kept(quiet, s, u)
    requires n < |t.nodes| && t.nodes == u.nodes[n := t.nodes[n]] && Kept(quiet, u, t)
    requires KnownAddresses(u.nodes[n].pool) <= KnownAddresses(t.nodes[n].pool)
    requires ReadKnown(g.files[n], u.nodes[n].cursor, r - 1, t.nodes[n].pool)
    ensures t.nodes == s.nodes[n := t.nodes[n]] && Kept(quiet, s, t)
    ensures KnownAddresses(s.nodes[n].pool) <= KnownAddresses(t.nodes[n].pool)
    ensures ReadKnown(g.files[n], s.nodes[n].cursor, r, t.nodes[n].pool)
  {
    ReadKnownFirst(g.files[n], s.nodes[n].cursor, r, t.nodes[n].pool);
    KeptOn(quiet, s, u, t);
  }

  /** A whole pass reads every line. */
  lemma PassReadsAll(lines: seq<Line>, cursor: nat, p: ClientPool.Pool)
    requires |lines| > 0 && cursor <= |lines| && ReadKnown(lines, cursor, |lines|, p) && EndpointsUnique(p)
    ensures FullMesh(p, lines)
  {
    forall x | x in FileAddresses(lines)
      ensures x in OpenAddresses(p)
    {
      var i: nat :| i < |lines| && lines[i].Endpoint? && Address(lines[i]) == x;
      EveryLineOnce(|lines|, cursor, i);
      var k: nat :| k < |lines| && ReadAt(|lines|, cursor, k) == i;
      assert lines[ReadAt(|lines|, cursor, k)].Endpoint?;
    }
    AllOpenIsMesh(p, lines);
  }

  /** The slot carries the ID of the node that listens at the endpoint. */
  ghost predicate CarriesId(g: Config, slot: ClientPool.Slot, at: (string, U16)) {
    at in g.listens && g.listens[at] < |g.ids| && slot.id == g.ids[g.listens[at]]
  }

  /** Every line of node n's file has one open slot of its own, and that slot carries the ID of the node that listens
      at the line's endpoint. */
  ghost predicate MeshedById(g: Config, s: Net, n: nat)
    requires n < |s.nodes| && n < |g.files|
  {
    && FullMesh(s.nodes[n].pool, g.files[n])
    && forall i, k | 0 <= i < |g.files[n]| && g.files[n][i].Endpoint? && 0 <= k < MAX_CLIENTS
                     && OnLine(s.nodes[n].pool[k], g.files[n][i]) ::
         CarriesId(g, s.nodes[n].pool[k], Address(g.files[n][i]))
  }

  lemma InvMeansIdentified(g: Config, s: Net, n: nat)
    requires |g.files| == |g.ids| && Inv(g, s) && n < |g.ids| && s.nodes[n].opening.Reading?
    requires FullMesh(s.nodes[n].pool, g.files[n])
    ensures MeshedById(g, s, n)
  {
    forall i, k | 0 <= i < |g.files[n]| && g.files[n][i].Endpoint? && 0 <= k < MAX_CLIENTS
                  && OnLine(s.nodes[n].pool[k], g.files[n][i])
      ensures CarriesId(g, s.nodes[n].pool[k], Address(g.files[n][i]))
    {
      assert SlotInv(g, s, n, k);
    }
  }

  /** No node can come to its mesh unless its file is served. */
  lemma MeshIsServed(g: Config, s: Net, n: nat)
    requires ConfigOk(g) && Inv(g, s) && FilesInv(g, s) && n < |g.ids| && MeshedById(g, s, n)
    ensures FileServed(g, n)
  {
    MeshTellsApart(s.nodes[n].pool, g.files[n]);
    forall i | 0 <= i < |g.files[n]| && g.files[n][i].Endpoint?
      ensures Address(g.files[n][i]) in g.listens
    {
      assert OneSlotFor(s.nodes[n].pool, g.files[n][i]);
    }
  }

  lemma NodeMeshes(quiet: bool, g: Config, s0: Net, s: Net, n: nat, extra: seq<nat>) returns (t: Net)
    requires ConfigOk(g) && Comes(g, s0, s) && n < |g.ids| && LinesFit(g.files[n])
    requires FileServed(g, n) && Ready(g, s, n) && Roomy(quiet, g, s, n, extra)
    ensures From(g, s0, t) && Ready(g, t, n) && Roomy(quiet, g, t, n, extra)
    ensures t.nodes == s.nodes[n := t.nodes[n]] && Kept(quiet, s, t) && MeshedById(g, t, n)
  {
    ComesInv(g, s0, s);
    if |g.files[n]| == 0 {
      t := s;
      KeptBeside(quiet, s, t);
    } else {
      t := PassGoes(quiet, g, s0, s, n, extra, |g.files[n]|);
      PassReadsAll(g.files[n], s.nodes[n].cursor, t.nodes[n].pool);
      ComesInv(g, s0, t);
      InvMeansIdentified(g, t, n);
    }
  }

  /** The same from wherever node n's connection task stands. */
  lemma NodeComesToMesh(quiet: bool, g: Config, s0: Net, s: Net, n: nat, extra: seq<nat>) returns (t: Net)
    requires ConfigOk(g) && Comes(g, s0, s) && n < |g.ids| && LinesFit(g.files[n])
    requires FileServed(g, n) && Sized(g, s) && EndpointsUnique(s.nodes[n].pool) && Roomy(quiet, g, s, n, extra)
    ensures From(g, s0, t) && Ready(g, t, n) && Roomy(quiet, g, t, n, extra)
    ensures t.nodes == s.nodes[n := t.nodes[n]] && Kept(quiet, s, t) && MeshedById(g, t, n)
  {
    ComesInv(g, s0, s);
    var node := AttemptEnds(g, s0, s, n);
    var u := AtNode(s, n, node);
    RoomyStays(quiet, g, s, u, n, extra);
    t := NodeMeshes(quiet, g, s0, u, n, extra);
    KeptBeside(quiet, s, u);
    KeptOn(quiet, s, u, t);
  }
}
