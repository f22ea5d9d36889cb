/** What holds of every run of the network: handshake agreement, stream shape and end-to-end delivery. */
module EndToEnd {
  import opened SwarmTypes
  import opened Codec
  import opened Hosts
  import opened Network
  import opened NetworkSafety
  import Runs = ClientRuns

  /** A client slot that carries an ID is on an open connection to the node that listens at the slot's endpoint, the ID
      is exactly that node's, and on that connection the server had recorded the client's own ID. */
  lemma HandshakeAgreement(g: Config, s: Net, n: nat, k: nat)
    requires ConfigOk(g) && Reachable(g, s) && n < |g.ids| && k < MAX_CLIENTS
    ensures Sized(g, s)
    ensures var slot := s.nodes[n].pool[k];
            slot.id != 0 ==>
              && slot.open && LinkOf(s, n, k).Some?
              && var conn := s.conns[LinkOf(s, n, k).value];
              && conn.client == n && conn.slot == k && conn.server < |g.ids|
              && ListenerOf(g, slot) == Some(conn.server)
              && slot.id == g.ids[conn.server]
              && conn.recorded == Some(g.ids[n])
  {
    ReachableInv(g, s);
    assert Runs.Inv(s.nodes[n]) && SlotInv(g, s, n, k);
    if s.nodes[n].pool[k].id != 0 {
      assert ConnInv(g, s.orders, s.conns[LinkOf(s, n, k).value]);
    }
  }

  /** Between connection attempts every open client slot carries the ID of the node that listens at its endpoint. */
  lemma OpenMeansIdentified(g: Config, s: Net, n: nat, k: nat)
    requires ConfigOk(g) && Reachable(g, s) && n < |g.ids| && k < MAX_CLIENTS
    ensures Sized(g, s)
    ensures s.nodes[n].opening.Reading? && s.nodes[n].pool[k].open ==>
              && ListenerOf(g, s.nodes[n].pool[k]).Some? && ListenerOf(g, s.nodes[n].pool[k]).value < |g.ids|
              && s.nodes[n].pool[k].id == g.ids[ListenerOf(g, s.nodes[n].pool[k]).value]
  {
    ReachableInv(g, s);
    assert SlotInv(g, s, n, k);
  }

  /** Client to server a stream is the client's ID frame and then data; back it is the server's ID frame at most.
      There is data only once the server has taken the ID frame, so no handshake receive ever meets data. */
  lemma StreamShape(g: Config, s: Net, c: nat)
    requires ConfigOk(g) && Reachable(g, s) && c < |s.conns|
    ensures var conn := s.conns[c];
            && conn.client < |g.ids| && conn.server < |g.ids| && !conn.torn
            && (conn.up == [] || conn.up[0] == IdFrame(g.ids[conn.client]))
            && (forall i | 1 <= i < |conn.up| ::
                  Unwrapped(g, conn.up[i]).Some? && Deframe(Unwrapped(g, conn.up[i]).value).Some?)
            && (conn.down == [] || conn.down == [IdFrame(g.ids[conn.server])])
            && (|conn.up| > 1 ==> conn.recorded == Some(g.ids[conn.client]) && conn.taken >= 1)
  {
    ReachableInv(g, s);
    var conn := s.conns[c];
    assert ConnInv(g, s.orders, conn);
    forall i | 1 <= i < |conn.up|
      ensures Unwrapped(g, conn.up[i]).Some? && Deframe(Unwrapped(g, conn.up[i]).value).Some?
    {
      assert DataOk(g, s.orders, conn, i - 1);
      CarriedIsDelivered(g, conn.up[i], g.ids[conn.client], s.orders[conn.tags[i - 1]]);
    }
  }

  /** Until the server has recorded the client's ID nothing that a reader hands up is taken by a deframer, even if a
      reader that was started for another connection took the ID frame. */
  lemma NothingBeforeHandshake(g: Config, s: Net, c: nat, a: nat)
    requires ConfigOk(g) && Reachable(g, s) && c < |s.conns| && s.conns[c].recorded == None && a < |s.conns[c].handed|
    ensures s.conns[c].handed[a] < |s.conns[c].up| && Uplink(g, s.conns[c].up[s.conns[c].handed[a]]) == None
  {
    ReachableInv(g, s);
    var conn := s.conns[c];
    assert ConnInv(g, s.orders, conn);
    assert conn.tags == [] && conn.up[conn.handed[a]] == IdFrame(g.ids[conn.client]);
  }

  /** Message i of a stream, once a deframer takes it, is data that carries an order for this very node or everyone. */
  lemma TakenIsOrdered(g: Config, s: Net, c: nat, i: nat)
    requires ConfigOk(g) && Inv(g, s) && c < |s.conns| && i < |s.conns[c].up| && Uplink(g, s.conns[c].up[i]).Some?
    ensures var conn := s.conns[c];
            && conn.client < |g.ids| && conn.server < |g.ids|
            && 1 <= i <= |conn.tags| && conn.tags[i - 1] < |s.orders|
            && var order := s.orders[conn.tags[i - 1]];
            && order.node == conn.client
            && Uplink(g, conn.up[i]) == Some(Delivery(g.ids[order.node], order.payload))
            && (order.dest == g.ids[conn.server] || order.dest == BROADCAST)
  {
    var conn := s.conns[c];
    assert ConnInv(g, s.orders, conn);
    assert conn.up[0] == IdFrame(g.ids[conn.client]);
    if i > 0 {
      assert DataOk(g, s.orders, conn, i - 1);
      CarriedIsDelivered(g, conn.up[i], g.ids[conn.client], s.orders[conn.tags[i - 1]]);
    }
  }

  /** Whatever comes out of a node's deframer was handed to the framer of the node it names as its source, unchanged,
      and was addressed to this very node or to everyone. */
  lemma DeliveredAsOrdered(g: Config, s: Net, c: nat, a: nat) returns (tag: nat)
    requires ConfigOk(g) && Reachable(g, s) && c < |s.conns| && a < |s.conns[c].handed|
    requires s.conns[c].handed[a] < |s.conns[c].up| && Uplink(g, s.conns[c].up[s.conns[c].handed[a]]).Some?
    ensures tag < |s.orders| && s.conns[c].client < |g.ids| && s.conns[c].server < |g.ids|
    ensures var order := s.orders[tag];
            && order.node == s.conns[c].client
            && Uplink(g, s.conns[c].up[s.conns[c].handed[a]]) == Some(Delivery(g.ids[order.node], order.payload))
            && (order.dest == g.ids[s.conns[c].server] || order.dest == BROADCAST)
  {
    ReachableInv(g, s);
    TakenIsOrdered(g, s, c, s.conns[c].handed[a]);
    tag := s.conns[c].tags[s.conns[c].handed[a] - 1];
  }

  /** With device IDs that tell nodes apart, an order for node m reaches no other node. */
  lemma OnlyTheDestinationIsReached(g: Config, s: Net, c: nat, i: nat, m: nat)
    requires ConfigOk(g) && Reachable(g, s) && c < |s.conns| && i < |s.conns[c].tags| && m < |g.ids|
    ensures s.conns[c].tags[i] < |s.orders|
    ensures && (forall a, b | 0 <= a < b < |g.ids| :: g.ids[a] != g.ids[b])
            && s.orders[s.conns[c].tags[i]].dest == g.ids[m] != BROADCAST
            ==> s.conns[c].server == m
  {
    ReachableInv(g, s);
    assert ConnInv(g, s.orders, s.conns[c]) && DataOk(g, s.orders, s.conns[c], i);
  }

  /** A connection whose handshake is done has data on it only, in the order in which the client took its orders, and
      hands up what was put on it, each message once at most, whichever readers take part. */
  lemma HandedUpOnce(g: Config, s: Net, c: nat)
    requires ConfigOk(g) && Reachable(g, s) && c < |s.conns| && s.conns[c].recorded.Some?
    ensures var conn := s.conns[c];
            && 1 <= conn.taken <= |conn.up| && |conn.up| == |conn.tags| + 1 && Increasing(conn.tags)
            && conn.client < |g.ids|
            && (forall a, b | 0 <= a < b < |conn.handed| :: conn.handed[a] != conn.handed[b])
            && forall a | 0 <= a < |conn.handed| ::
                 && 1 <= conn.handed[a] < conn.taken && conn.tags[conn.handed[a] - 1] < |s.orders|
                 && Carries(g, conn.up[conn.handed[a]], g.ids[conn.client], s.orders[conn.tags[conn.handed[a] - 1]])
  {
    ReachableInv(g, s);
    var conn := s.conns[c];
    assert ConnInv(g, s.orders, conn);
    forall a | 0 <= a < |conn.handed|
      ensures 1 <= conn.handed[a] < conn.taken && conn.tags[conn.handed[a] - 1] < |s.orders|
              && Carries(g, conn.up[conn.handed[a]], g.ids[conn.client], s.orders[conn.tags[conn.handed[a] - 1]])
    {
      assert DataOk(g, s.orders, conn, conn.handed[a] - 1);
    }
  }

  /** As long as no reader that was started for another connection takes from it, a connection hands its data up in the
      order in which it was put on, without a gap, and all of it that was taken but for what its reader still holds. */
  lemma InOrderUnlessShared(g: Config, s: Net, c: nat)
    requires ConfigOk(g) && Reachable(g, s) && c < |s.conns| && !s.conns[c].shared
    ensures forall a | 0 <= a < |s.conns[c].handed| :: s.conns[c].handed[a] == a + 1
    ensures forall m, j: nat | 0 <= m < |s.hosts| && IsOwn(s.hosts[m], j, c) ::
              |s.conns[c].handed| + (if j in s.hosts[m].held && s.hosts[m].held[j].c == c then 2 else 1)
              == s.conns[c].taken
  {
    ReachableInv(g, s);
    assert ConnInv(g, s.orders, s.conns[c]);
    forall m, j: nat | 0 <= m < |s.hosts| && IsOwn(s.hosts[m], j, c)
      ensures |s.conns[c].handed| + (if j in s.hosts[m].held && s.hosts[m].held[j].c == c then 2 else 1)
              == s.conns[c].taken
    {
      assert HostOk(m, s.hosts[m], s.conns) && ReaderOk(s.hosts[m], s.conns, j);
    }
  }

  /** An order for one node is handed up at most once, on all connections together. */
  lemma UnicastAtMostOnce(g: Config, s: Net, c: nat, a: nat, d: nat, b: nat)
    requires ConfigOk(g) && Reachable(g, s) && c < |s.conns| && d < |s.conns|
    requires a < |s.conns[c].handed| && 1 <= s.conns[c].handed[a] <= |s.conns[c].tags|
    requires b < |s.conns[d].handed| && 1 <= s.conns[d].handed[b] <= |s.conns[d].tags|
    requires s.conns[c].tags[s.conns[c].handed[a] - 1] == s.conns[d].tags[s.conns[d].handed[b] - 1]
    ensures s.conns[c].tags[s.conns[c].handed[a] - 1] < |s.orders|
    ensures s.orders[s.conns[c].tags[s.conns[c].handed[a] - 1]].dest != BROADCAST ==> c == d && a == b
  {
    ReachableInv(g, s);
    assert ConnInv(g, s.orders, s.conns[c]) && ConnInv(g, s.orders, s.conns[d]);
    assert DataOk(g, s.orders, s.conns[c], s.conns[c].handed[a] - 1);
  }
}
