/** Exactly when a broadcast can still arrive at one of the nodes a node is connected to. */
module Broadcast {
  import opened SwarmTypes
  import opened Codec
  import opened RoutingScan
  import opened Network
  import opened NetworkSafety
  import opened Joining
  import opened Arrival
  import opened Transitions
  import Runs = ClientRuns

  /** Node n may be asked to send, and its slot k is connected to a node that it knows. */
  ghost predicate CanCast(g: Config, s: Net, n: nat, k: nat) {
    && |g.files| == |g.ids| && Sized(g, s) && n < |g.ids| && Runs.SlotOk(s.nodes[n].opening)
    && s.nodes[n].sending.NoSend? && k < MAX_CLIENTS && s.nodes[n].pool[k].open && s.nodes[n].pool[k].id != 0
  }

  /** The sender takes a step by itself. */
  lemma SenderGoes(g: Config, s0: Net, s: Net, n: nat, sending: Runs.SendPc, step: Runs.Action, next: Runs.SendPc)
    requires n < |s.nodes| && From(g, s0, AtSender(s, n, sending)) && IsLocal(step)
    requires NodeCan(g, AtSender(s, n, sending), n, step)
    requires Runs.Do(g.files[n], s.nodes[n].(sending := sending), step) == s.nodes[n].(sending := next)
    ensures From(g, s0, AtSender(s, n, next))
  {
    Go(g, s0, AtSender(s, n, sending), Local(n, step));
    assert NodeDid(g, AtSender(s, n, sending), n, step) == AtSender(s, n, next);
  }

  /** With the mask against it, slot i is passed over. */
  lemma CastPasses(g: Config, s0: Net, s: Net, n: nat, msg: seq<byte>, i: nat)
    requires |g.files| == |g.ids| && Sized(g, s) && n < |g.ids| && Runs.SlotOk(s.nodes[n].opening) && i < MAX_CLIENTS
    requires From(g, s0, AtSender(s, n, Runs.CastLooking(msg, i)))
    ensures From(g, s0, AtSender(s, n, Runs.CastLooking(msg, i + 1)))
  {
    if s.nodes[n].pool[i].open {
      SenderGoes(g, s0, s, n, Runs.CastLooking(msg, i), Runs.CastLook, Runs.CastAsking(msg, i));
      SenderGoes(g, s0, s, n, Runs.CastAsking(msg, i), Runs.CastAsk(false), Runs.CastLooking(msg, i + 1));
    } else {
      SenderGoes(g, s0, s, n, Runs.CastLooking(msg, i), Runs.CastLook, Runs.CastLooking(msg, i + 1));
    }
  }

  lemma {:induction false} CastComesTo(g: Config, s0: Net, s: Net, n: nat, msg: seq<byte>, i: nat, k: nat)
    requires |g.files| == |g.ids| && Sized(g, s) && n < |g.ids| && Runs.SlotOk(s.nodes[n].opening)
    requires i <= k < MAX_CLIENTS && From(g, s0, AtSender(s, n, Runs.CastLooking(msg, i)))
    ensures From(g, s0, AtSender(s, n, Runs.CastLooking(msg, k)))
    decreases k - i
  {
    if i < k {
      CastPasses(g, s0, s, n, msg, i);
      CastComesTo(g, s0, s, n, msg, i + 1, k);
    }
  }

  /** The order taken, its receiver found to be everyone. */
  lemma CastTaken(g: Config, s0: Net, s: Net, n: nat, k: nat, payload: seq<byte>, pre: seq<byte>, post: seq<byte>)
    requires From(g, s0, s) && CanCast(g, s, n, k) && NoTag(Encode(g.ids[n]))
    requires |pre| == g.preSize && |post| == g.postSize && NoTag(pre) && |payload| + 12 < 0x1_0000_0000
    ensures var msg := Wrapped(pre, g.ids[n], BROADCAST, payload, post);
            From(g, s0, AtSender(Ordered(s, n, payload), n, Runs.Routing(msg, BROADCAST)))
  {
    var behind: seq<byte> := seq(6, _ => 0);
    RouteFramed(pre, g.ids[n], BROADCAST, payload, post, behind);
    Go(g, s0, s, Handle(n, BROADCAST, payload, pre, post, behind));
    var msg := Wrapped(pre, g.ids[n], BROADCAST, payload, post);
    assert Handled(g, s, n, BROADCAST, payload, pre, post, behind)
        == AtSender(Ordered(s, n, payload), n, Runs.Routing(msg, BROADCAST));
  }

  /** The broadcast is among the orders, as node n's latest. */
  ghost function Ordered(s: Net, n: nat, payload: seq<byte>): Net
    requires n < |s.serial|
  {
    s.(orders := s.orders + [Order(n, BROADCAST, payload)], serial := s.serial[n := |s.orders|])
  }

  /** The message put on slot k's stream, with the sender past that slot. */
  ghost function CastNet(s: Net, n: nat, k: nat, msg: seq<byte>): Net
    requires n < |s.nodes| && n < |s.serial|
  {
    AtSender(s, n, Runs.CastLooking(msg, k + 1)).(conns := Put(s, n, k, msg, Some(s.serial[n]), true))
  }

  lemma CastGoesOut(g: Config, s0: Net, s: Net, n: nat, k: nat, msg: seq<byte>)
    requires CanCast(g, s, n, k) && From(g, s0, AtSender(s, n, Runs.Routing(msg, BROADCAST)))
    ensures From(g, s0, CastNet(s, n, k, msg))
  {
    SenderGoes(g, s0, s, n, Runs.Routing(msg, BROADCAST), Runs.AskMask(false), Runs.CastLooking(msg, 0));
    CastComesTo(g, s0, s, n, msg, 0, k);
    SenderGoes(g, s0, s, n, Runs.CastLooking(msg, k), Runs.CastLook, Runs.CastAsking(msg, k));
    SenderGoes(g, s0, s, n, Runs.CastAsking(msg, k), Runs.CastAsk(true), Runs.CastTransmitting(msg, k));
    CastTransmitted(g, s0, s, n, k, msg);
  }

  lemma CastTransmitted(g: Config, s0: Net, s: Net, n: nat, k: nat, msg: seq<byte>)
    requires CanCast(g, s, n, k) && From(g, s0, AtSender(s, n, Runs.CastTransmitting(msg, k)))
    ensures From(g, s0, CastNet(s, n, k, msg))
  {
    var d := AtSender(s, n, Runs.CastTransmitting(msg, k));
    Go(g, s0, d, CastOn(n, true, true));
    assert CastOut(g, d, n, true).nodes == CastNet(s, n, k, msg).nodes;
  }

  /** The connection of an identified slot. */
  lemma SlotGoesTo(g: Config, s: Net, n: nat, k: nat)
    requires ConfigOk(g) && Inv(g, s) && n < |g.ids| && k < MAX_CLIENTS
    requires s.nodes[n].pool[k].open && s.nodes[n].pool[k].id != 0
    ensures LinkOf(s, n, k).Some? && s.conns[LinkOf(s, n, k).value].back == 1 && Runs.SlotOk(s.nodes[n].opening)
  {
    assert Runs.Inv(s.nodes[n]) && SlotInv(g, s, n, k);
  }

  /** The broadcast gets onto the connection of slot k. */
  lemma CastIsOut(g: Config, s: Net, n: nat, k: nat, payload: seq<byte>, c: nat) returns (t: Net)
    requires ConfigOk(g) && CanCast(g, s, n, k) && |payload| + 12 < 0x1_0000_0000 && LinkOf(s, n, k) == Some(c)
    ensures From(g, s, t) && t.orders == s.orders + [Order(n, BROADCAST, payload)] && t.hosts == s.hosts
    ensures |t.conns| == |s.conns| && |t.conns[c].up| == |s.conns[c].up| + 1
    ensures t.conns[c] == s.conns[c].(up := t.conns[c].up, tags := s.conns[c].tags + [|s.orders|])
  {
    ReachesItself(Step(g), s);
    var (pre, post) := (seq(g.preSize, _ => 0), seq(g.postSize, _ => 0));
    var msg := Wrapped(pre, g.ids[n], BROADCAST, payload, post);
    CastTaken(g, s, s, n, k, payload, pre, post);
    CastGoesOut(g, s, Ordered(s, n, payload), n, k, msg);
    t := CastNet(Ordered(s, n, payload), n, k, msg);
  }

  /** A broadcast can arrive over an attended connection. */
  lemma BroadcastArrives(g: Config, s: Net, n: nat, k: nat, payload: seq<byte>, c: nat) returns (t: Net)
    requires ConfigOk(g) && Inv(g, s) && CanCast(g, s, n, k) && |payload| + 12 < 0x1_0000_0000
    requires LinkOf(s, n, k) == Some(c) && s.conns[c].back == 1
    requires Alive(s, c) && !s.hosts[s.conns[c].server].srv.stopped
    ensures From(g, s, t) && t.orders == s.orders + [Order(n, BROADCAST, payload)] && Arrived(t, c, |s.orders|)
  {
    BackMeansRecorded(g, s, c);
    var u := CastIsOut(g, s, n, k, payload, c);
    assert Alive(u, c);
    t := LastArrives(g, s, u, c);
  }

  /** From every reachable state a broadcast can be handed up at the node that slot k is connected to exactly if the
      slot's connection is attended there. */
  lemma BroadcastArrivesIff(g: Config, s: Net, n: nat, k: nat, payload: seq<byte>, c: nat)
    requires ConfigOk(g) && Reachable(g, s) && CanCast(g, s, n, k) && |payload| + 12 < 0x1_0000_0000
    requires LinkOf(s, n, k) == Some(c)
    requires s.conns[c].server < |s.hosts| && !s.hosts[s.conns[c].server].srv.stopped
    ensures (exists t :: From(g, s, t) && s.orders + [Order(n, BROADCAST, payload)] <= t.orders
                         && Arrived(t, c, |s.orders|))
            <==> Alive(s, c)
  {
    ReachableInv(g, s);
    SlotGoesTo(g, s, n, k);
    if Alive(s, c) {
      var t := BroadcastArrives(g, s, n, k, payload, c);
      assert s.orders + [Order(n, BROADCAST, payload)] <= t.orders;
    } else {
      forall t | From(g, s, t)
        ensures !Arrived(t, c, |s.orders|)
      {
        NothingArrives(g, s, t, c);
      }
    }
  }
}
