/** Full meshes of several nodes together: what they can come to. */
module NetworkMesh {
  import opened SwarmTypes
  import opened Codec
  import opened ClientPool
  import opened ParseBuffer
  import opened OpenTask
  import opened Hosts
  import opened Network
  import opened Joining
  import opened Mesh
  import opened Transitions
  import Runs = ClientRuns
  import Room = ServerRoom
  import Srv = ServerRuns

  // ---- what several nodes need ----

  /** What the nodes of `who` from n on still need of server m. */
  ghost function TotalNeed(g: Config, s: Net, who: set<nat>, n: nat, m: nat): nat
    requires |s.nodes| == |g.files| && n <= |g.files|
    decreases |g.files| - n
  {
    if n == |g.files| then 0
    else (if n in who then |Need(g, s.nodes[n], n, m)| else 0) + TotalNeed(g, s, who, n + 1, m)
  }

  lemma {:induction false} TotalNeedOfOthers(g: Config, s: Net, t: Net, who: set<nat>, n: nat, m: nat)
    requires |s.nodes| == |t.nodes| == |g.files| && n <= |g.files|
    requires forall i | n <= i < |g.files| :: t.nodes[i] == s.nodes[i]
    ensures TotalNeed(g, t, who, n, m) == TotalNeed(g, s, who, n, m)
    decreases |g.files| - n
  {
    if n < |g.files| {
      TotalNeedOfOthers(g, s, t, who, n + 1, m);
      assert t.nodes[n] == s.nodes[n];
    }
  }

  /** Server m has room for what the nodes of `who` from n on need of it. */
  ghost predicate RoomOn(quiet: bool, g: Config, s: Net, who: set<nat>, n: nat, m: nat)
    requires |s.nodes| == |g.files| && n <= |g.files|
  {
    HasRoom(quiet, s, m, TotalNeed(g, s, who, n, m))
  }

  ghost predicate RoomForAll(quiet: bool, g: Config, s: Net, who: set<nat>, n: nat)
    requires |s.nodes| == |g.files| && n <= |g.files|
  {
    forall m | 0 <= m < |g.ids| :: RoomOn(quiet, g, s, who, n, m)
  }

  /** What those behind n need, server by server. */
  ghost function NeedBehind(g: Config, s: Net, who: set<nat>, n: nat): (extra: seq<nat>)
    requires |s.nodes| == |g.files| && n < |g.files|
    ensures |extra| == |g.ids|
  {
    seq(|g.ids|, m requires 0 <= m < |g.ids| => TotalNeed(g, s, who, n + 1, m))
  }

  lemma RoomySplits(quiet: bool, g: Config, s: Net, who: set<nat>, n: nat)
    requires |s.nodes| == |g.files| == |g.ids| && n < |g.files| && n in who && RoomForAll(quiet, g, s, who, n)
    ensures Roomy(quiet, g, s, n, NeedBehind(g, s, who, n))
  {
    forall m | 0 <= m < |g.ids|
      ensures RoomyOn(quiet, g, s, n, NeedBehind(g, s, who, n), m)
    {
      assert RoomOn(quiet, g, s, who, n, m);
    }
  }

  lemma RoomyLeaves(quiet: bool, g: Config, s: Net, t: Net, who: set<nat>, n: nat)
    requires |s.nodes| == |t.nodes| == |g.files| == |g.ids| && n < |g.files|
    requires Roomy(quiet, g, t, n, NeedBehind(g, s, who, n)) && t.nodes == s.nodes[n := t.nodes[n]]
    ensures RoomForAll(quiet, g, t, who, n + 1)
  {
    var next := n + 1;
    forall m | 0 <= m < |g.ids|
      ensures RoomOn(quiet, g, t, who, next, m)
    {
      TotalNeedOfOthers(g, s, t, who, n + 1, m);
      assert RoomyOn(quiet, g, t, n, NeedBehind(g, s, who, n), m);
      LessRoom(quiet, t, m, |Need(g, t.nodes[n], n, m)| + NeedBehind(g, s, who, n)[m], TotalNeed(g, t, who, n + 1, m));
    }
  }

  lemma RoomPassesOver(quiet: bool, g: Config, s: Net, who: set<nat>, n: nat)
    requires |s.nodes| == |g.files| == |g.ids| && n < |g.files| && n !in who && RoomForAll(quiet, g, s, who, n)
    ensures RoomForAll(quiet, g, s, who, n + 1)
  {
    var next := n + 1;
    forall m | 0 <= m < |g.ids|
      ensures RoomOn(quiet, g, s, who, next, m)
    {
      assert RoomOn(quiet, g, s, who, n, m);
    }
  }

  // ---- one node after the other ----

  /** The files fit the parse buffer, and no node has a key open twice. */
  ghost predicate Orderly(g: Config, s: Net, who: set<nat>)
    requires Sized(g, s) && |g.files| == |g.ids|
  {
    forall n: nat | n in who && n < |g.ids| :: LinesFit(g.files[n]) && EndpointsUnique(s.nodes[n].pool)
  }

  ghost predicate AllServed(g: Config, who: set<nat>) {
    forall n: nat | n in who && n < |g.ids| && n < |g.files| :: FileServed(g, n)
  }

  ghost predicate MeshedBefore(g: Config, s: Net, who: set<nat>, n: nat)
    requires |s.nodes| == |g.files| && n <= |g.files|
  {
    forall i: nat | i in who && i < n :: MeshedById(g, s, i)
  }

  /** All nodes of `who` have their full meshes. */
  ghost predicate Meshed(g: Config, s: Net, who: set<nat>) {
    |g.files| == |g.ids| && Sized(g, s) && MeshedBefore(g, s, who, |g.ids|)
  }

  predicate IsNode(g: Config, n: nat) {
    n < |g.ids|
  }

  ghost function Everybody(g: Config): set<nat> {
    set n: nat | n < |g.ids| && IsNode(g, n)
  }

  lemma OneMoreMeshed(g: Config, s: Net, t: Net, who: set<nat>, n: nat)
    requires |s.nodes| == |t.nodes| == |g.files| && n < |g.files| && MeshedBefore(g, s, who, n)
    requires t.nodes == s.nodes[n := t.nodes[n]] && MeshedById(g, t, n)
    ensures MeshedBefore(g, t, who, n + 1)
  {
    forall i: nat | i in who && i < n + 1
      ensures MeshedById(g, t, i)
    {
      assert i < n ==> MeshedById(g, s, i) && t.nodes[i] == s.nodes[i];
    }
  }

  /** Node n comes to its mesh and leaves room for those behind it. */
  lemma NextMeshes(quiet: bool, g: Config, s0: Net, s: Net, who: set<nat>, n: nat) returns (t: Net)
    requires ConfigOk(g) && Comes(g, s0, s) && n < |g.ids| && n in who && FileServed(g, n)
    requires Sized(g, s) && Orderly(g, s, who) && RoomForAll(quiet, g, s, who, n)
    ensures From(g, s0, t) && Sized(g, t) && Orderly(g, t, who) && RoomForAll(quiet, g, t, who, n + 1)
    ensures t.nodes == s.nodes[n := t.nodes[n]] && Kept(quiet, s, t) && MeshedById(g, t, n)
  {
    RoomySplits(quiet, g, s, who, n);
    t := NodeComesToMesh(quiet, g, s0, s, n, NeedBehind(g, s, who, n));
    RoomyLeaves(quiet, g, s, t, who, n);
  }

  lemma {:induction false} RestMeshes(quiet: bool, g: Config, s0: Net, s: Net, who: set<nat>, n: nat) returns (t: Net)
    requires ConfigOk(g) && Comes(g, s0, s) && n <= |g.ids| && Sized(g, s) && Orderly(g, s, who) && AllServed(g, who)
    requires RoomForAll(quiet, g, s, who, n) && MeshedBefore(g, s, who, n)
    ensures From(g, s0, t) && Sized(g, t) && MeshedBefore(g, t, who, |g.ids|) && Kept(quiet, s, t)
    decreases |g.ids| - n
  {
    if n == |g.ids| {
      t := s;
      KeptBeside(quiet, s, t);
    } else if n in who {
      var u := NextMeshes(quiet, g, s0, s, who, n);
      OneMoreMeshed(g, s, u, who, n);
      t := RestMeshes(quiet, g, s0, u, who, n + 1);
      KeptOn(quiet, s, u, t);
    } else {
      RoomPassesOver(quiet, g, s, who, n);
      t := RestMeshes(quiet, g, s0, s, who, n + 1);
    }
  }

  // ---- attempts that need no place any more ----

  /** Server m is about to answer the client of connection c. */
  ghost predicate AboutToAnswer(h: Host, c: nat) {
    h.srv.accept.Identified? && SeatOf(h, h.srv.accept.k) == Some(c)
  }

  /** Node n waits for server m's ID, which is on the stream or about to be sent. */
  ghost predicate Pledged(s: Net, n: nat, m: nat) {
    && n < |s.nodes| && m < |s.hosts| && s.nodes[n].opening.ReceivingId?
    && LinkOf(s, n, s.nodes[n].opening.k).Some?
    && var c := LinkOf(s, n, s.nodes[n].opening.k).value;
    && s.conns[c].server == m && (s.conns[c].down != [] || AboutToAnswer(s.hosts[m], c))
  }

  /** What node n has to get of server m by new attempts. */
  ghost function Debt(g: Config, s: Net, n: nat, m: nat): int
    requires n < |s.nodes| && n < |g.files|
  {
    |Need(g, s.nodes[n], n, m)| - if Pledged(s, n, m) then 1 else 0
  }

  ghost function TotalDebt(g: Config, s: Net, who: set<nat>, n: nat, m: nat): int
    requires |s.nodes| == |g.files| && n <= |g.files|
    decreases |g.files| - n
  {
    if n == |g.files| then 0 else (if n in who then Debt(g, s, n, m) else 0) + TotalDebt(g, s, who, n + 1, m)
  }

  /** No node's debt grew. */
  lemma {:induction false} DebtsFall(g: Config, s: Net, t: Net, who: set<nat>, n: nat, m: nat)
    requires |s.nodes| == |t.nodes| == |g.files| && n <= |g.files|
    requires forall i: nat | n <= i < |g.files| :: Debt(g, t, i, m) <= Debt(g, s, i, m)
    ensures TotalDebt(g, t, who, n, m) <= TotalDebt(g, s, who, n, m)
    decreases |g.files| - n
  {
    if n < |g.files| {
      DebtsFall(g, s, t, who, n + 1, m);
    }
  }

  lemma {:induction false} DebtIsNeed(g: Config, s: Net, who: set<nat>, n: nat, m: nat)
    requires |s.nodes| == |g.files| && n <= |g.files|
    requires forall i: nat | n <= i < |g.files| && i in who :: !Pledged(s, i, m)
    ensures TotalDebt(g, s, who, n, m) == TotalNeed(g, s, who, n, m)
    decreases |g.files| - n
  {
    if n < |g.files| {
      DebtIsNeed(g, s, who, n + 1, m);
    }
  }

  /** Nobody has less room, or has been stopped. */
  ghost predicate NoPlaceLess(s: Net, t: Net) {
    StopsNobody(s, t) && forall i: nat, r: nat | HasPlaces(s, i, r) :: HasPlaces(t, i, r)
  }

  /** The server answers, which takes no place. */
  lemma PledgeIsAnswered(g: Config, s0: Net, s: Net, m: nat, c: nat) returns (t: Net)
    requires m < |s.hosts| && m < |g.ids| && HostOk(m, s.hosts[m], s.conns) && From(g, s0, s) && c < |s.conns|
    requires s.conns[c].down == [] && AboutToAnswer(s.hosts[m], c)
    ensures From(g, s0, t) && |t.hosts| == |s.hosts|
    ensures t == s.(hosts := s.hosts[m := t.hosts[m]], conns := s.conns[c := s.conns[c].(down := [IdFrame(g.ids[m])])])
    ensures t.hosts[m] == s.hosts[m].(srv := s.hosts[m].srv.(accept := Srv.Ready(s.hosts[m].srv.accept.k)))
  {
    Go(g, s0, s, AnswerOn(m, true, true));
    t := AnswerSent(g, s, m, true, true);
    assert t.conns[c] == s.conns[c].(down := [IdFrame(g.ids[m])]);
    assert t.conns == s.conns[c := s.conns[c].(down := [IdFrame(g.ids[m])])];
  }

  lemma AnsweringTakesNoPlace(s: Net, t: Net, m: nat)
    requires m < |s.hosts| == |t.hosts| && t.hosts == s.hosts[m := t.hosts[m]]
    requires s.hosts[m].srv.accept.Identified? && SeatOf(s.hosts[m], s.hosts[m].srv.accept.k).Some?
    requires t.hosts[m].srv == s.hosts[m].srv.(accept := Srv.Ready(s.hosts[m].srv.accept.k))
    ensures NoPlaceLess(s, t)
  {
    var (v, w) := (s.hosts[m].srv, t.hosts[m].srv);
    assert Room.Lost(w) == Room.Lost(v) && (Room.Exhausted(w) <==> Room.Exhausted(v));
  }

  /** The others' pledges stand. */
  ghost predicate PledgesOfOthers(s: Net, t: Net, n: nat) {
    forall i: nat, m: nat | i != n :: Pledged(t, i, m) <==> Pledged(s, i, m)
  }

  /** What redeeming a pledge of node n at server m does: slot k gets its ID, and nobody else notices. */
  ghost predicate Redeemed(g: Config, s: Net, t: Net, n: nat, k: nat, m: nat) {
    && n < |s.nodes| && k < MAX_CLIENTS && m < |g.ids|
    && t.nodes == s.nodes[n := Identified(s.nodes[n], k, g.ids[m])]
    && NoPlaceLess(s, t) && PledgesOfOthers(s, t, n)
  }

  /** The connection of a pledge is node n's own. */
  lemma PledgedIsOwn(g: Config, s: Net, n: nat, m: nat)
    requires |g.files| == |g.ids| && Inv(g, s) && Pledged(s, n, m)
    ensures var (k, c) := (s.nodes[n].opening.k, LinkOf(s, n, s.nodes[n].opening.k).value);
            && k < MAX_CLIENTS && s.nodes[n].pool[k].open && s.nodes[n].pool[k].id == 0 && m < |g.ids|
            && s.conns[c].client == n && s.conns[c].back == 0
            && (s.conns[c].down == [] || s.conns[c].down == [IdFrame(g.ids[m])])
            && ListenerOf(g, s.nodes[n].pool[k]) == Some(m)
  {
    assert Runs.Inv(s.nodes[n]) && SlotInv(g, s, n, s.nodes[n].opening.k);
    assert ConnInv(g, s.orders, s.conns[LinkOf(s, n, s.nodes[n].opening.k).value]);
  }

  /** Whoever else is pledged is so by another connection. */
  lemma AnsweringKeepsPledges(g: Config, s: Net, t: Net, n: nat, m: nat, c: nat)
    requires |g.files| == |g.ids| && Inv(g, s) && m < |s.hosts| == |t.hosts| && c < |s.conns|
    requires s.conns[c].client == n && AboutToAnswer(s.hosts[m], c) && |t.conns| == |s.conns|
    requires t == s.(hosts := s.hosts[m := t.hosts[m]], conns := s.conns[c := t.conns[c]])
    requires t.conns[c].server == s.conns[c].server && !t.hosts[m].srv.accept.Identified?
    ensures PledgesOfOthers(s, t, n)
  {
    forall i: nat, l: nat | i != n
      ensures Pledged(t, i, l) <==> Pledged(s, i, l)
    {
      if Pledged(s, i, l) {
        PledgedIsOwn(g, s, i, l);
      }
      if i < |s.nodes| && s.nodes[i].opening.ReceivingId? {
        assert Runs.Inv(s.nodes[i]) && SlotInv(g, s, i, s.nodes[i].opening.k);
      }
    }
  }

  lemma ReceivingKeepsPledges(g: Config, s: Net, t: Net, n: nat, c: nat)
    requires n < |s.nodes| == |t.nodes| && c < |s.conns|
    requires t == s.(nodes := s.nodes[n := t.nodes[n]], conns := s.conns[c := s.conns[c].(back := 1)])
    ensures PledgesOfOthers(s, t, n)
  {
  }

  lemma AnsweredRedeems(g: Config, s0: Net, s: Net, n: nat, m: nat) returns (t: Net)
    requires |g.files| == |g.ids| && Inv(g, s) && From(g, s0, s) && Pledged(s, n, m)
    requires s.conns[LinkOf(s, n, s.nodes[n].opening.k).value].down != []
    ensures From(g, s0, t) && Redeemed(g, s, t, n, s.nodes[n].opening.k, m)
  {
    PledgedIsOwn(g, s, n, m);
    var (k, c) := (s.nodes[n].opening.k, LinkOf(s, n, s.nodes[n].opening.k).value);
    ClientIsAnswered(g, s0, s, n, k, c);
    t := s.(nodes := s.nodes[n := Identified(s.nodes[n], k, g.ids[m])], conns := s.conns[c := s.conns[c].(back := 1)]);
    ReceivingKeepsPledges(g, s, t, n, c);
  }

  /** The server answers the client that it is about to answer. */
  lemma AnswerKeepsPledge(g: Config, s0: Net, s: Net, n: nat, m: nat) returns (t: Net)
    requires ConfigOk(g) && Inv(g, s) && From(g, s0, s) && Pledged(s, n, m)
    requires s.conns[LinkOf(s, n, s.nodes[n].opening.k).value].down == []
    ensures From(g, s0, t) && t.nodes == s.nodes && t.links == s.links && NoPlaceLess(s, t) && PledgesOfOthers(s, t, n)
    ensures Pledged(t, n, m) && t.conns[LinkOf(t, n, t.nodes[n].opening.k).value].down != []
  {
    PledgedIsOwn(g, s, n, m);
    var c := LinkOf(s, n, s.nodes[n].opening.k).value;
    assert HostOk(m, s.hosts[m], s.conns);
    t := PledgeIsAnswered(g, s0, s, m, c);
    AnsweringTakesNoPlace(s, t, m);
    AnsweringKeepsPledges(g, s, t, n, m, c);
  }

  lemma PledgeIsRedeemed(g: Config, s0: Net, s: Net, n: nat, m: nat) returns (t: Net)
    requires ConfigOk(g) && Inv(g, s0) && From(g, s0, s) && Pledged(s, n, m)
    ensures From(g, s0, t) && Redeemed(g, s, t, n, s.nodes[n].opening.k, m)
  {
    FromInv(g, s0, s);
    if s.conns[LinkOf(s, n, s.nodes[n].opening.k).value].down != [] {
      t := AnsweredRedeems(g, s0, s, n, m);
    } else {
      var u := AnswerKeepsPledge(g, s0, s, n, m);
      FromInv(g, s0, u);
      t := AnsweredRedeems(g, s0, u, n, m);
    }
  }

  /** The endpoint of a pledge is needed. */
  lemma PledgedIsNeeded(g: Config, s: Net, n: nat, m: nat)
    requires |g.files| == |g.ids| && Inv(g, s) && FilesInv(g, s) && Pledged(s, n, m) && EndpointsUnique(s.nodes[n].pool)
    ensures n < |g.ids| && s.nodes[n].opening.k < MAX_CLIENTS
    ensures SlotAddress(s.nodes[n].pool[s.nodes[n].opening.k]) in Need(g, s.nodes[n], n, m)
  {
    PledgedIsOwn(g, s, n, m);
    var (p, k) := (s.nodes[n].pool, s.nodes[n].opening.k);
    assert SlotAddress(p[k]) in OpenAddresses(p);
    forall j | 0 <= j < |p| && p[j].open && SlotAddress(p[j]) == SlotAddress(p[k])
      ensures p[j].id == 0
    {
      SameKey(p[j], p[k]);
    }
  }

  lemma RedeemedOwesLess(g: Config, s: Net, t: Net, n: nat, m: nat)
    requires ConfigOk(g) && Inv(g, s) && FilesInv(g, s) && Sized(g, s) && Pledged(s, n, m)
    requires EndpointsUnique(s.nodes[n].pool) && Redeemed(g, s, t, n, s.nodes[n].opening.k, m)
    ensures EndpointsUnique(t.nodes[n].pool) && (forall l: nat :: !Pledged(t, n, l))
    ensures forall i: nat, l: nat | i < |g.ids| :: Debt(g, t, i, l) <= Debt(g, s, i, l)
  {
    PledgedIsOwn(g, s, n, m);
    PledgedIsNeeded(g, s, n, m);
    var (p, k) := (s.nodes[n].pool, s.nodes[n].opening.k);
    IdentifiedIsKnown(g, s.nodes[n], k, m);
    forall i: nat, l: nat | i < |g.ids|
      ensures Debt(g, t, i, l) <= Debt(g, s, i, l)
    {
      if i == n {
        NeedAfterJoin(g, s.nodes[n], t.nodes[n], n, l, SlotAddress(p[k]));
      }
    }
    assert forall j | 0 <= j < MAX_CLIENTS :: t.nodes[n].pool[j].open == p[j].open
                                             && SlotAddress(t.nodes[n].pool[j]) == SlotAddress(p[j]);
    SameSlotsUnique(p, t.nodes[n].pool);
  }

  lemma SameSlotsUnique(p: ClientPool.Pool, q: ClientPool.Pool)
    requires EndpointsUnique(p)
    requires forall j | 0 <= j < MAX_CLIENTS :: q[j].open == p[j].open && SlotAddress(q[j]) == SlotAddress(p[j])
    ensures EndpointsUnique(q)
  {
    forall i, j | 0 <= i < j < MAX_CLIENTS && q[i].open && q[j].open
      ensures SlotKey(q[i]) != SlotKey(q[j])
    {
      SameKey(p[i], q[i]);
      SameKey(p[j], q[j]);
    }
  }

  /** What redeeming all pledges from node n on comes to. */
  ghost predicate AllRedeemed(g: Config, s: Net, t: Net, who: set<nat>, n: nat)
    requires |g.files| == |g.ids| && Sized(g, s) && Sized(g, t)
  {
    && NoPlaceLess(s, t) && Orderly(g, t, who)
    && (forall i: nat, l: nat | i < |g.ids| :: Debt(g, t, i, l) <= Debt(g, s, i, l))
    && (forall i: nat, l: nat | n <= i < |g.ids| && i in who :: !Pledged(t, i, l))
    && (forall i: nat, l: nat | i < n :: Pledged(t, i, l) <==> Pledged(s, i, l))
  }

  /** And redeeming that of node n, if it has one. */
  ghost predicate OneRedeemed(g: Config, s: Net, u: Net, who: set<nat>, n: nat)
    requires |g.files| == |g.ids| && Sized(g, s) && Sized(g, u)
  {
    && NoPlaceLess(s, u) && PledgesOfOthers(s, u, n) && (n in who ==> forall l: nat :: !Pledged(u, n, l))
    && forall i: nat, l: nat | i < |g.ids| :: Debt(g, u, i, l) <= Debt(g, s, i, l)
  }

  lemma NextRedeems(g: Config, s0: Net, s: Net, who: set<nat>, n: nat) returns (t: Net)
    requires ConfigOk(g) && Comes(g, s0, s) && Sized(g, s) && Orderly(g, s, who) && n < |g.ids|
    ensures From(g, s0, t) && Sized(g, t) && Orderly(g, t, who) && OneRedeemed(g, s, t, who, n)
  {
    t := s;
    if m: nat :| n in who && Pledged(s, n, m) {
      ComesInv(g, s0, s);
      t := PledgeIsRedeemed(g, s0, s, n, m);
      RedeemedOwesLess(g, s, t, n, m);
      ComesInv(g, s0, t);
    }
  }

  lemma {:induction false} PledgesAreRedeemed(g: Config, s0: Net, s: Net, who: set<nat>, n: nat) returns (t: Net)
    requires ConfigOk(g) && Comes(g, s0, s) && Sized(g, s) && Orderly(g, s, who) && n <= |g.ids|
    ensures From(g, s0, t) && Sized(g, t) && AllRedeemed(g, s, t, who, n)
    decreases |g.ids| - n
  {
    if n == |g.ids| {
      t := s;
    } else {
      var u := NextRedeems(g, s0, s, who, n);
      t := PledgesAreRedeemed(g, s0, u, who, n + 1);
      RedeemedOn(g, s, u, t, who, n);
    }
  }

  lemma RedeemedOn(g: Config, s: Net, u: Net, t: Net, who: set<nat>, n: nat)
    requires |g.files| == |g.ids| && Sized(g, s) && Sized(g, u) && Sized(g, t)
    requires OneRedeemed(g, s, u, who, n) && AllRedeemed(g, u, t, who, n + 1)
    ensures AllRedeemed(g, s, t, who, n)
  {
    forall i: nat, l: nat | i < n
      ensures Pledged(t, i, l) <==> Pledged(s, i, l)
    {
      assert Pledged(t, i, l) <==> Pledged(u, i, l);
    }
    forall i: nat, l: nat | n <= i < |g.ids| && i in who
      ensures !Pledged(t, i, l)
    {
      assert i == n ==> (Pledged(t, i, l) <==> Pledged(u, i, l));
    }
    forall i: nat, l: nat | i < |g.ids|
      ensures Debt(g, t, i, l) <= Debt(g, s, i, l)
    {
      assert Debt(g, t, i, l) <= Debt(g, u, i, l);
    }
  }

  // ---- what they can come to ----

  /** Server m can be joined as often as the nodes of `who` owe it. */
  ghost predicate CanServe(g: Config, s: Net, who: set<nat>, m: nat)
    requires |s.nodes| == |g.files|
  {
    var debt := TotalDebt(g, s, who, 0, m);
    HasPlaces(s, m, if debt > 0 then debt else 0)
  }

  lemma RedeemedHaveRoom(g: Config, s: Net, t: Net, who: set<nat>)
    requires |g.files| == |g.ids| && Sized(g, s) && Sized(g, t) && AllRedeemed(g, s, t, who, 0)
    requires forall m: nat | m < |g.ids| :: CanServe(g, s, who, m)
    ensures RoomForAll(false, g, t, who, 0)
  {
    forall m: nat | m < |g.ids|
      ensures RoomOn(false, g, t, who, 0, m)
    {
      DebtsFall(g, s, t, who, 0, m);
      DebtIsNeed(g, t, who, 0, m);
      var debt := TotalDebt(g, s, who, 0, m);
      assert CanServe(g, s, who, m);
      LessRoom(false, t, m, if debt > 0 then debt else 0, TotalNeed(g, t, who, 0, m));
    }
  }

  /** The nodes of `who` can come to full meshes of all of their files if every server can be joined often enough. */
  lemma NodesCanMesh(g: Config, s: Net, who: set<nat>) returns (t: Net)
    requires ConfigOk(g) && Reachable(g, s) && Sized(g, s) && Orderly(g, s, who) && AllServed(g, who)
    requires forall m: nat | m < |g.ids| :: CanServe(g, s, who, m)
    ensures From(g, s, t) && Sized(g, t) && MeshedBefore(g, t, who, |g.ids|) && StopsNobody(s, t)
  {
    ReachesItself(Step(g), s);
    var u := PledgesAreRedeemed(g, s, s, who, 0);
    RedeemedHaveRoom(g, s, u, who);
    t := RestMeshes(false, g, s, u, who, 0);
  }
}
