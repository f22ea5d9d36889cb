/** Exactly when several nodes can still come to full meshes: what spent servers make impossible. */
module MeshLimits {
  import opened SwarmTypes
  import opened Collections
  import opened ClientPool
  import opened OpenTask
  import opened HostFile
  import opened Hosts
  import opened Network
  import opened NetworkSafety
  import opened Joining
  import opened Completion
  import opened Arrival
  import opened Mesh
  import opened NetworkMesh
  import opened Transitions
  import Runs = ClientRuns
  import Room = ServerRoom
  import Srv = ServerRuns

  // ---- what a client's step does to what a node owes a server ----

  /** Only a received ID makes a slot known. */
  lemma StepKnowsNothing(lines: seq<Line>, s: Runs.State, step: Runs.Action)
    requires Runs.Inv(s) && Runs.CanDo(lines, s, step) && (step.RecvId? ==> step.reply == None)
    ensures KnownAddresses(Runs.Do(lines, s, step).pool) <= KnownAddresses(s.pool)
  {
    var (p, q) := (s.pool, Runs.Do(lines, s, step).pool);
    assert forall k | 0 <= k < |q| && q[k].open && q[k].id != 0 ::
        p[k].open && p[k].id != 0 && SlotAddress(p[k]) == SlotAddress(q[k]);
  }

  lemma NothingGetsKnown(g: Config, s: Net, a: Action, n: nat)
    requires CanDo(g, s, a) && !OfServer(a) && !a.RecvIdOn? && n < |s.nodes| && Runs.Inv(s.nodes[n])
    ensures n < |Do(g, s, a).nodes|
    ensures KnownAddresses(Do(g, s, a).nodes[n].pool) <= KnownAddresses(s.nodes[n].pool)
  {
    OpeningStepDone(g, s, a);
    if a.n == n && OpeningStep(s, a).Some? {
      StepKnowsNothing(g.files[n], s.nodes[n], OpeningStep(s, a).value);
    }
  }

  lemma LessKnownMoreNeeded(g: Config, a: Runs.State, b: Runs.State, n: nat, m: nat)
    requires n < |g.files| && KnownAddresses(b.pool) <= KnownAddresses(a.pool)
    ensures |Need(g, a, n, m)| <= |Need(g, b, n, m)|
  {
    NeedShrinks(g, b, a, n, m);
  }

  /** A connection whose client has just sent its ID is not answered yet, nor about to be. */
  lemma FreshIsNotPledged(g: Config, s: Net, n: nat)
    requires |g.files| == |g.ids| && Inv(g, s) && n < |s.nodes| && s.nodes[n].opening.SendingId?
    ensures var k := s.nodes[n].opening.k;
            LinkOf(s, n, k).Some? ==>
              var c := LinkOf(s, n, k).value;
              s.conns[c].down == [] && forall m | 0 <= m < |s.hosts| :: !AboutToAnswer(s.hosts[m], c)
  {
    var k := s.nodes[n].opening.k;
    assert Runs.Inv(s.nodes[n]) && SlotInv(g, s, n, k);
    if LinkOf(s, n, k).Some? {
      var c := LinkOf(s, n, k).value;
      assert ConnInv(g, s.orders, s.conns[c]);
      forall m | 0 <= m < |s.hosts|
        ensures !AboutToAnswer(s.hosts[m], c)
      {
        assert HostOk(m, s.hosts[m], s.conns);
        NoAnswerWithoutId(m, s.hosts[m], s.conns, c);
      }
    }
  }

  lemma NoAnswerWithoutId(m: nat, h: Host, conns: seq<Conn>, c: nat)
    requires HostOk(m, h, conns) && c < |conns| && conns[c].recorded == None
    ensures !AboutToAnswer(h, c)
  {
    if AboutToAnswer(h, c) {
      HandIsSeat(m, h, conns);
    }
  }

  /** Who waits for an ID waited before, or has just sent its own. */
  lemma WaitedBefore(g: Config, s: Net, a: Action, n: nat)
    requires CanDo(g, s, a) && !OfServer(a) && n < |s.nodes|
    ensures n < |Do(g, s, a).nodes|
    ensures Do(g, s, a).nodes[n].opening.ReceivingId? ==>
              || Do(g, s, a).nodes[n].opening == s.nodes[n].opening
              || s.nodes[n].opening == Runs.SendingId(Do(g, s, a).nodes[n].opening.k)
  {
    OpeningStepDone(g, s, a);
  }

  lemma LinkStays(g: Config, s: Net, a: Action, n: nat, k: nat)
    requires CanDo(g, s, a) && !OfServer(a) && n < |s.nodes| && LinkOf(s, n, k).Some?
    requires s.nodes[n].opening == Runs.SendingId(k) || s.nodes[n].opening == Runs.ReceivingId(k)
    ensures LinkOf(Do(g, s, a), n, k) == LinkOf(s, n, k)
  {
  }

  lemma SameLinkSamePledge(s: Net, t: Net, n: nat, m: nat)
    requires t.hosts == s.hosts && n < |s.nodes| && s.nodes[n].opening.ReceivingId? && Pledged(t, n, m)
    requires t.nodes[n].opening == s.nodes[n].opening
    requires var k := s.nodes[n].opening.k;
             && LinkOf(s, n, k) == LinkOf(t, n, k)
             && SameForServer(s.conns[LinkOf(s, n, k).value], t.conns[LinkOf(t, n, k).value])
    ensures Pledged(s, n, m)
  {
  }

  lemma FreshSendsNoPledge(g: Config, s: Net, t: Net, n: nat, m: nat)
    requires |g.files| == |g.ids| && Inv(g, s) && t.hosts == s.hosts && n < |s.nodes|
    requires s.nodes[n].opening.SendingId? && LinkOf(s, n, s.nodes[n].opening.k).Some?
    requires var k := s.nodes[n].opening.k;
             && LinkOf(s, n, k) == LinkOf(t, n, k)
             && SameForServer(s.conns[LinkOf(s, n, k).value], t.conns[LinkOf(t, n, k).value])
    ensures n < |t.nodes| && t.nodes[n].opening == Runs.ReceivingId(s.nodes[n].opening.k) ==> !Pledged(t, n, m)
  {
    FreshIsNotPledged(g, s, n);
  }

  lemma WaitingIsLinked(g: Config, s: Net, n: nat)
    requires |g.files| == |g.ids| && Inv(g, s) && n < |s.nodes|
    requires s.nodes[n].opening.SendingId? || s.nodes[n].opening.ReceivingId?
    ensures LinkOf(s, n, s.nodes[n].opening.k).Some?
  {
    assert Runs.Inv(s.nodes[n]) && SlotInv(g, s, n, s.nodes[n].opening.k);
  }

  lemma ClientMakesNoPledge(g: Config, s: Net, a: Action, n: nat, m: nat)
    requires |g.files| == |g.ids| && Inv(g, s) && CanDo(g, s, a) && !OfServer(a) && n < |s.nodes|
    ensures Pledged(Do(g, s, a), n, m) ==> Pledged(s, n, m)
  {
    WaitedBefore(g, s, a, n);
    if Pledged(Do(g, s, a), n, m) {
      ClientStepIsAside(g, s, a);
      WaitingIsLinked(g, s, n);
      LinkStays(g, s, a, n, s.nodes[n].opening.k);
      if s.nodes[n].opening.SendingId? {
        FreshSendsNoPledge(g, s, Do(g, s, a), n, m);
      } else {
        SameLinkSamePledge(s, Do(g, s, a), n, m);
      }
    }
  }

  /** Receiving an ID settles one endpoint, and uses the pledge up. */
  lemma ReceivingOwesNoLess(g: Config, s: Net, n: nat, junk: seq<byte>, m: nat)
    requires ConfigOk(g) && Inv(g, s) && CanDo(g, s, RecvIdOn(n, junk)) && n < |g.ids| && m < |g.ids|
    ensures Debt(g, Do(g, s, RecvIdOn(n, junk)), n, m) >= Debt(g, s, n, m)
  {
    var t := IdReceived(g, s, n, junk);
    var k := s.nodes[n].opening.k;
    assert Runs.Inv(s.nodes[n]) && SlotInv(g, s, n, k);
    var at := SlotAddress(s.nodes[n].pool[k]);
    OneGetsKnown(g.files[n], s.nodes[n], ReceivedInto(junk, NextDown(s, n).value));
    OneLessNeeded(g, s.nodes[n], t.nodes[n], n, m, at);
    assert !Pledged(t, n, m);
  }

  lemma OneGetsKnown(lines: seq<Line>, s: Runs.State, reply: seq<byte>)
    requires s.opening.ReceivingId? && Runs.CanDo(lines, s, Runs.RecvId(Some(reply))) && |reply| == 24
    ensures var t := Runs.Do(lines, s, Runs.RecvId(Some(reply)));
            && KnownAddresses(t.pool) <= KnownAddresses(s.pool) + {SlotAddress(s.pool[s.opening.k])}
            && !t.opening.ReceivingId?
  {
    var (p, q) := (s.pool, Runs.Do(lines, s, Runs.RecvId(Some(reply))).pool);
    assert forall k | 0 <= k < |q| && k != s.opening.k :: q[k] == p[k];
  }

  lemma OneLessNeeded(g: Config, a: Runs.State, b: Runs.State, n: nat, m: nat, at: (string, U16))
    requires n < |g.files| && KnownAddresses(b.pool) <= KnownAddresses(a.pool) + {at}
    ensures |Need(g, a, n, m)| <= |Need(g, b, n, m)| + (if at in g.listens && g.listens[at] == m then 1 else 0)
  {
    if at in g.listens && g.listens[at] == m {
      SubsetSize(Need(g, a, n, m), Need(g, b, n, m) + {at});
    } else {
      SubsetSize(Need(g, a, n, m), Need(g, b, n, m));
    }
  }

  /** No client's step lowers what any node owes. */
  lemma ClientOwesNoLess(g: Config, s: Net, a: Action, n: nat, m: nat)
    requires ConfigOk(g) && Inv(g, s) && CanDo(g, s, a) && !OfServer(a) && n < |g.ids| && m < |g.ids|
    ensures n < |Do(g, s, a).nodes| && Debt(g, Do(g, s, a), n, m) >= Debt(g, s, n, m)
  {
    OpeningStepDone(g, s, a);
    if a.RecvIdOn? && a.n == n {
      ReceivingOwesNoLess(g, s, n, a.junk, m);
    } else {
      assert Runs.Inv(s.nodes[n]);
      ClientMakesNoPledge(g, s, a, n, m);
      if a.n == n {
        NothingGetsKnown(g, s, a, n);
        LessKnownMoreNeeded(g, s.nodes[n], Do(g, s, a).nodes[n], n, m);
      }
    }
  }

  // ---- what a server's step does ----

  /** A server comes to be about to answer a client by recording its ID. */
  lemma AnswerComes(m: nat, h: Host, conns: seq<Conn>, c: nat, b: Srv.Action, h': Host)
    requires HostOk(m, h, conns) && Srv.CanDo(h.srv, b) && h'.srv == Srv.Do(h.srv, b) && h'.joined == h.joined
    requires h'.srv.issued == h.srv.issued && AboutToAnswer(h', c)
    ensures AboutToAnswer(h, c)
            || (b.RecvClientId? && h.srv.accept.Joined? && SeatOf(h, h.srv.accept.k) == Some(c))
  {
    SeatWasThere(m, h, conns, c, b, h', h'.srv.accept.k);
  }

  /** Server m has just recorded the ID of node n. */
  ghost predicate JustMet(g: Config, s: Net, a: Action, n: nat, m: nat)
    requires CanDo(g, s, a)
  {
    && a.TakeIdOn? && a.m == m && m < |Do(g, s, a).hosts| && Do(g, s, a).hosts[m].srv.accept.Identified?
    && s.hosts[m].srv.accept.Joined? && SeatOf(s.hosts[m], s.hosts[m].srv.accept.k).Some?
    && SeatOf(s.hosts[m], s.hosts[m].srv.accept.k).value < |s.conns|
    && s.conns[SeatOf(s.hosts[m], s.hosts[m].srv.accept.k).value].client == n
  }

  lemma ServerLeavesClients(g: Config, s: Net, a: Action)
    requires CanDo(g, s, a) && OfServer(a)
    ensures var t := Do(g, s, a);
            && t.nodes == s.nodes && t.links == s.links && |t.conns| == |s.conns| && |t.hosts| == |s.hosts|
            && forall c | 0 <= c < |s.conns| :: t.conns[c].server == s.conns[c].server
  {
  }

  lemma AnsweredWasAbout(g: Config, s: Net, a: Action, c: nat)
    requires CanDo(g, s, a) && OfServer(a) && c < |s.conns| && s.conns[c].down == []
    ensures c < |Do(g, s, a).conns|
    ensures Do(g, s, a).conns[c].down != [] ==> a.AnswerOn? && AboutToAnswer(s.hosts[a.m], c)
  {
  }

  lemma AboutBefore(g: Config, s: Net, a: Action, m: nat, c: nat)
    requires |g.files| == |g.ids| && Inv(g, s) && CanDo(g, s, a) && OfServer(a) && m < |s.hosts|
    ensures m < |Do(g, s, a).hosts|
    ensures AboutToAnswer(Do(g, s, a).hosts[m], c) ==>
              || AboutToAnswer(s.hosts[m], c)
              || (a.TakeIdOn? && a.m == m && s.hosts[m].srv.accept.Joined?
                  && SeatOf(s.hosts[m], s.hosts[m].srv.accept.k) == Some(c))
  {
    if a.m != m {
      OthersLeaveHost(g, s, m, a);
    } else {
      ServerActionDone(g, s, a);
      IssuedOnAccept(s.hosts[m].srv, ServerAction(s, a));
      assert HostOk(m, s.hosts[m], s.conns);
      if AboutToAnswer(Do(g, s, a).hosts[m], c) {
        AnswerComes(m, s.hosts[m], s.conns, c, ServerAction(s, a), Do(g, s, a).hosts[m]);
      }
    }
  }

  /** The client of the connection that a waiting node's slot is on is the node itself. */
  lemma WaitsOnOwn(g: Config, s: Net, n: nat)
    requires |g.files| == |g.ids| && Inv(g, s) && n < |s.nodes| && s.nodes[n].opening.ReceivingId?
    requires LinkOf(s, n, s.nodes[n].opening.k).Some?
    ensures s.conns[LinkOf(s, n, s.nodes[n].opening.k).value].client == n
  {
    assert Runs.Inv(s.nodes[n]) && SlotInv(g, s, n, s.nodes[n].opening.k);
  }

  lemma ServerMakesPledge(g: Config, s: Net, a: Action, n: nat, m: nat)
    requires |g.files| == |g.ids| && Inv(g, s) && CanDo(g, s, a) && OfServer(a)
    ensures Pledged(Do(g, s, a), n, m) ==> Pledged(s, n, m) || JustMet(g, s, a, n, m)
  {
    ServerLeavesClients(g, s, a);
    if Pledged(Do(g, s, a), n, m) {
      var c := LinkOf(s, n, s.nodes[n].opening.k).value;
      WaitsOnOwn(g, s, n);
      AboutBefore(g, s, a, m, c);
      if s.conns[c].down == [] {
        AnsweredWasAbout(g, s, a, c);
        AnswererIsServer(g, s, a, c);
      }
    }
  }

  lemma AnswererIsServer(g: Config, s: Net, a: Action, c: nat)
    requires |g.files| == |g.ids| && Inv(g, s) && CanDo(g, s, a) && OfServer(a) && c < |s.conns|
    ensures a.AnswerOn? && AboutToAnswer(s.hosts[a.m], c) ==> s.conns[c].server == a.m
  {
    if a.AnswerOn? && AboutToAnswer(s.hosts[a.m], c) {
      SeatIsJoined(g, s, a.m, s.hosts[a.m].srv.accept.k);
    }
  }

  // ---- what is owed to a spent server stays owed ----

  /** Server m has been stopped, or is spent, and what the nodes of `who` owe it together with what it has lost is no
      less than it was at s. */
  ghost predicate Owing(g: Config, s: Net, x: Net, who: set<nat>, m: nat)
    requires |g.files| == |g.ids| && Sized(g, s)
  {
    && Sized(g, x) && m < |g.ids|
    && (x.hosts[m].srv.stopped
        || (Room.Spent(x.hosts[m].srv)
            && Room.Lost(x.hosts[m].srv) + TotalDebt(g, x, who, 0, m)
               >= Room.Lost(s.hosts[m].srv) + TotalDebt(g, s, who, 0, m)))
  }

  /** One node's debt fell by one at most, and nobody else's. */
  lemma {:induction false} DebtsFallByOne(g: Config, s: Net, t: Net, who: set<nat>, n: nat, m: nat, e: nat)
    requires |s.nodes| == |t.nodes| == |g.files| && n <= |g.files|
    requires forall i: nat | n <= i < |g.files| :: Debt(g, t, i, m) >= Debt(g, s, i, m) - (if i == e then 1 else 0)
    ensures TotalDebt(g, t, who, n, m) >= TotalDebt(g, s, who, n, m) - (if n <= e then 1 else 0)
    decreases |g.files| - n
  {
    if n < |g.files| {
      DebtsFallByOne(g, s, t, who, n + 1, m, e);
    }
  }

  lemma ClientStaysOwing(g: Config, s: Net, x: Net, who: set<nat>, m: nat, a: Action)
    requires ConfigOk(g) && Sized(g, s) && Inv(g, x) && Owing(g, s, x, who, m) && CanDo(g, x, a) && !OfServer(a)
    requires Sized(g, Do(g, x, a))
    ensures Owing(g, s, Do(g, x, a), who, m)
  {
    var t := Do(g, x, a);
    OthersLeaveHost(g, x, m, a);
    forall i: nat | i < |g.ids|
      ensures Debt(g, x, i, m) <= Debt(g, t, i, m)
    {
      ClientOwesNoLess(g, x, a, i, m);
    }
    DebtsFall(g, t, x, who, 0, m);
  }

  /** Meeting a client costs a spent server a place, and settles one debt at most. */
  lemma ServerOwes(g: Config, x: Net, a: Action, who: set<nat>, m: nat)
    requires ConfigOk(g) && Inv(g, x) && CanDo(g, x, a) && OfServer(a) && m < |g.ids| && Sized(g, x)
    requires Sized(g, Do(g, x, a))
    ensures var met := exists n: nat :: JustMet(g, x, a, n, m);
            TotalDebt(g, Do(g, x, a), who, 0, m) >= TotalDebt(g, x, who, 0, m) - (if met then 1 else 0)
  {
    var t := Do(g, x, a);
    ServerLeavesClients(g, x, a);
    if e: nat :| JustMet(g, x, a, e, m) {
      forall i: nat | i < |g.ids|
        ensures Debt(g, t, i, m) >= Debt(g, x, i, m) - (if i == e then 1 else 0)
      {
        ServerMakesPledge(g, x, a, i, m);
      }
      DebtsFallByOne(g, x, t, who, 0, m, e);
    } else {
      forall i: nat | i < |g.ids|
        ensures Debt(g, x, i, m) <= Debt(g, t, i, m)
      {
        ServerMakesPledge(g, x, a, i, m);
      }
      DebtsFall(g, t, x, who, 0, m);
    }
  }

  lemma ServerLoses(g: Config, x: Net, a: Action, m: nat)
    requires CanDo(g, x, a) && OfServer(a) && m < |x.hosts| && Srv.Inv(x.hosts[m].srv) && x.hosts[m].srv.protocol
    requires !x.hosts[m].srv.stopped && Room.Spent(x.hosts[m].srv)
    ensures m < |Do(g, x, a).hosts|
    ensures var (v, w) := (x.hosts[m].srv, Do(g, x, a).hosts[m].srv);
            !w.stopped ==>
              && Room.Spent(w)
              && Room.Lost(w) >= Room.Lost(v) + (if exists n: nat :: JustMet(g, x, a, n, m) then 1 else 0)
  {
    var v := x.hosts[m].srv;
    if a.m == m {
      ServerActionDone(g, x, a);
      var b := ServerAction(x, a);
      if !b.Stop? {
        Room.StaysSpent(v, b);
        Room.StepKeepsLost(v, b);
        if a.TakeIdOn? && Do(g, x, a).hosts[m].srv.accept.Identified? {
          Room.SpentLosesByMeeting(v, b.received);
        }
      }
    } else {
      OthersLeaveHost(g, x, m, a);
    }
  }

  lemma ServerStaysOwing(g: Config, s: Net, x: Net, who: set<nat>, m: nat, a: Action)
    requires ConfigOk(g) && Sized(g, s) && Inv(g, x) && Owing(g, s, x, who, m) && CanDo(g, x, a) && OfServer(a)
    requires Sized(g, Do(g, x, a))
    ensures Owing(g, s, Do(g, x, a), who, m)
  {
    assert HostOk(m, x.hosts[m], x.conns);
    if x.hosts[m].srv.stopped {
      StoppedStays(g, x, a, m);
    } else {
      ServerOwes(g, x, a, who, m);
      ServerLoses(g, x, a, m);
    }
  }

  lemma StoppedStays(g: Config, x: Net, a: Action, m: nat)
    requires CanDo(g, x, a) && OfServer(a) && m < |x.hosts| && x.hosts[m].srv.stopped
    ensures m < |Do(g, x, a).hosts| && Do(g, x, a).hosts[m].srv.stopped
  {
    if a.m == m {
      ServerActionDone(g, x, a);
    } else {
      OthersLeaveHost(g, x, m, a);
    }
  }

  lemma StaysOwing(g: Config, s: Net, t: Net, who: set<nat>, m: nat)
    requires ConfigOk(g) && Inv(g, s) && Sized(g, s) && From(g, s, t) && Owing(g, s, s, who, m)
    ensures Inv(g, t) && Owing(g, s, t, who, m)
  {
    var inv := (x: Net) => Inv(g, x) && Owing(g, s, x, who, m);
    forall x: Net, a | inv(x) && Step(g)(x, a).Some?
      ensures inv(Step(g)(x, a).value)
    {
      StepKeepsInv(g, x, a);
      if OfServer(a) {
        ServerStaysOwing(g, s, x, who, m, a);
      } else {
        ClientStaysOwing(g, s, x, who, m, a);
      }
    }
    InvariantHolds(Step(g), inv, s, t);
  }

  // ---- the exact condition ----

  /** Who is meshed needs nobody. */
  lemma MeshedNeedsNobody(g: Config, s: Net, n: nat, m: nat)
    requires ConfigOk(g) && Inv(g, s) && n < |g.ids| && MeshedById(g, s, n)
    ensures Need(g, s.nodes[n], n, m) == {} && Debt(g, s, n, m) <= 0
  {
    forall at | at in Wanted(g, n, m)
      ensures at in KnownAddresses(s.nodes[n].pool)
    {
      var i :| 0 <= i < |g.files[n]| && g.files[n][i].Endpoint? && Address(g.files[n][i]) == at;
      assert OneSlotFor(s.nodes[n].pool, g.files[n][i]);
      var k: nat :| IsSlotFor(s.nodes[n].pool, g.files[n][i], k);
      assert CarriesId(g, s.nodes[n].pool[k], at);
    }
    assert Need(g, s.nodes[n], n, m) == {};
  }

  lemma {:induction false} MeshedOweNothing(g: Config, s: Net, who: set<nat>, n: nat, m: nat)
    requires ConfigOk(g) && Inv(g, s) && Sized(g, s) && MeshedBefore(g, s, who, |g.ids|) && n <= |g.ids|
    ensures TotalDebt(g, s, who, n, m) <= 0
    decreases |g.ids| - n
  {
    if n < |g.ids| {
      MeshedOweNothing(g, s, who, n + 1, m);
      if n in who {
        MeshedNeedsNobody(g, s, n, m);
      }
    }
  }

  /** No server that something is owed to has been stopped. */
  ghost predicate Standing(g: Config, s: Net, t: Net, who: set<nat>)
    requires |s.nodes| == |g.files|
  {
    forall m: nat | m < |g.ids| && TotalDebt(g, s, who, 0, m) > 0 :: m < |t.hosts| && !t.hosts[m].srv.stopped
  }

  lemma StoppedForGood(g: Config, s: Net, t: Net, m: nat)
    requires ConfigOk(g) && Inv(g, s) && From(g, s, t) && m < |g.ids| && Sized(g, s) && s.hosts[m].srv.stopped
    ensures m < |t.hosts| && t.hosts[m].srv.stopped
  {
    var inv := (x: Net) => m < |x.hosts| && x.hosts[m].srv.stopped;
    forall x: Net, a | inv(x) && Step(g)(x, a).Some?
      ensures inv(Step(g)(x, a).value)
    {
      if OfServer(a) {
        StoppedStays(g, x, a, m);
      } else {
        OthersLeaveHost(g, x, m, a);
      }
    }
    InvariantHolds(Step(g), inv, s, t);
  }

  /** A mesh that came about was served by servers that could. */
  lemma MeshWasServed(g: Config, s: Net, t: Net, who: set<nat>, m: nat)
    requires ConfigOk(g) && Inv(g, s) && Sized(g, s) && From(g, s, t) && m < |g.ids| && Standing(g, s, t, who)
    requires Sized(g, t) && Inv(g, t) && MeshedBefore(g, t, who, |g.ids|)
    ensures CanServe(g, s, who, m)
  {
    MeshedOweNothing(g, t, who, 0, m);
    var debt := TotalDebt(g, s, who, 0, m);
    if debt > 0 && s.hosts[m].srv.stopped {
      StoppedForGood(g, s, t, m);
    } else if debt > 0 && Room.Spent(s.hosts[m].srv) {
      StaysOwing(g, s, t, who, m);
      assert HostOk(m, t.hosts[m], t.conns);
      Room.LostAtMost(t.hosts[m].srv);
    }
  }

  /** From every reachable state, any number of nodes with nothing open twice can come to full meshes together, before
      the servers that they need are stopped, exactly if their files are served and every server can be joined as often
      as they owe it: it is not spent, or its lost places and what is owed to it together are MAX_CLIENTS at most. */
  lemma NodesMeshIff(g: Config, s: Net, who: set<nat>)
    requires ConfigOk(g) && Reachable(g, s) && Sized(g, s) && Orderly(g, s, who)
    ensures (exists t :: From(g, s, t) && Standing(g, s, t, who) && Meshed(g, t, who))
            <==> AllServed(g, who) && forall m: nat | m < |g.ids| :: CanServe(g, s, who, m)
  {
    ReachableInv(g, s);
    if AllServed(g, who) && forall m: nat | m < |g.ids| :: CanServe(g, s, who, m) {
      var t := NodesCanMesh(g, s, who);
      ServedAreStanding(g, s, t, who);
    }
    if t :| From(g, s, t) && Standing(g, s, t, who) && Meshed(g, t, who) {
      ComesInv(g, s, t);
      forall n: nat | n in who && n < |g.ids| && n < |g.files|
        ensures FileServed(g, n)
      {
        MeshIsServed(g, t, n);
      }
      forall m: nat | m < |g.ids|
        ensures CanServe(g, s, who, m)
      {
        MeshWasServed(g, s, t, who, m);
      }
    }
  }

  lemma ServedAreStanding(g: Config, s: Net, t: Net, who: set<nat>)
    requires |g.files| == |g.ids| && Sized(g, s) && StopsNobody(s, t)
    requires forall m: nat | m < |g.ids| :: CanServe(g, s, who, m)
    ensures Standing(g, s, t, who)
  {
    forall m: nat | m < |g.ids| && TotalDebt(g, s, who, 0, m) > 0
      ensures m < |t.hosts| && !t.hosts[m].srv.stopped
    {
      assert CanServe(g, s, who, m);
    }
  }
}
