/** The server end of a node: its accept task and readers, the connections they were given, and what they take from the
    streams. */
module Hosts {
  import opened SwarmTypes
  import opened Codec
  import opened ServerPool
  import Srv = ServerRuns

  /** A connection from a client slot of one node to the server of another: everything ever put on either stream, how
      much of it was taken, the client ID the server recorded, and which messages its readers handed up, in order.
      `tags` says which order each data message carries, `torn` whether a handshake receive ever cut a message in two,
      and `shared` whether a reader that was started for another connection ever took from this one. */
  datatype Conn = Conn(
    client: nat, slot: nat, server: nat,
    up: seq<seq<byte>>, taken: nat, tags: seq<nat>,
    down: seq<seq<byte>>, back: nat,
    accepted: bool, recorded: Option<U32>, handed: seq<nat>, torn: bool, shared: bool)

  /** Message i of connection c. */
  datatype Message = Message(c: nat, i: nat)

  /** A node's server; `joined` are the connections it accepted, by ticket, and `held` the messages its readers have
      received and not handed up yet, by pool entry. */
  datatype Host = Host(srv: Srv.State, joined: seq<nat>, held: map<nat, Message>)

  // ---- the steps ----

  /** Server steps that touch no stream. */
  predicate OfItsOwn(h: Host, a: Srv.Action) {
    match a
    case Accept(_, accepted) => !accepted
    case RecvClientId(received) => received == None
    case SendServerId(_) => false
    case Receive(_, ok) => !ok
    case HandUp(j) => j !in h.held
    case _ => true
  }

  /** The connection server slot k is on. */
  function SeatOf(h: Host, k: nat): Option<nat> {
    if k < MAX_CLIENTS && h.srv.server.slots[k].open && h.srv.tickets[k] < |h.joined| then
      Some(h.joined[h.srv.tickets[k]])
    else None
  }

  /** The first connection that waits to be accepted by server m. */
  function NextWaiting(conns: seq<Conn>, m: nat, from: nat): (c: nat)
    requires from <= |conns|
    ensures from <= c <= |conns|
    ensures forall i | from <= i < c :: conns[i].server != m || conns[i].accepted
    ensures c < |conns| ==> conns[c].server == m && !conns[c].accepted
    decreases |conns| - from
  {
    if from == |conns| || (conns[from].server == m && !conns[from].accepted) then from
    else NextWaiting(conns, m, from + 1)
  }

  predicate CanAccept(h: Host, m: nat, conns: seq<Conn>) {
    && Srv.CanDo(h.srv, Srv.Accept(true, true))
    && FirstClosed(h.srv.server.slots, 0) < MAX_CLIENTS && NextWaiting(conns, m, 0) < |conns|
  }

  function AcceptedBy(h: Host, c: nat): Host
    requires Srv.CanDo(h.srv, Srv.Accept(true, true))
  {
    h.(srv := Srv.Do(h.srv, Srv.Accept(true, true)), joined := h.joined + [c])
  }

  /** What the handshake receive finds on the stream, in its six bytes. */
  function IdBytes(conn: Conn, junk: seq<byte>): seq<byte>
    requires |junk| == 6 && conn.taken < |conn.up|
  {
    ReceivedInto(junk, conn.up[conn.taken])
  }

  predicate CanTakeId(h: Host, conns: seq<Conn>, junk: seq<byte>) {
    && h.srv.accept.Joined? && |junk| == 6 && SeatOf(h, h.srv.accept.k).Some?
    && var c := SeatOf(h, h.srv.accept.k).value;
    && c < |conns| && conns[c].taken < |conns[c].up|
    && Srv.CanDo(h.srv, Srv.RecvClientId(Some(IdBytes(conns[c], junk))))
  }

  function TookId(h: Host, conn: Conn, junk: seq<byte>): Host
    requires |junk| == 6 && conn.taken < |conn.up|
    requires Srv.CanDo(h.srv, Srv.RecvClientId(Some(IdBytes(conn, junk))))
  {
    h.(srv := Srv.Do(h.srv, Srv.RecvClientId(Some(IdBytes(conn, junk)))))
  }

  function IdTaken(conn: Conn, junk: seq<byte>): Conn
    requires |junk| == 6 && conn.taken < |conn.up|
  {
    var parsed := ParseId(IdBytes(conn, junk));
    conn.(taken := conn.taken + 1, torn := conn.torn || |conn.up[conn.taken]| > 6,
          recorded := if parsed.Some? then parsed else conn.recorded)
  }

  /** The server ID can only be sent, or bytes of it get onto the stream, while the socket is on its connection. */
  predicate CanAnswer(h: Host, conns: seq<Conn>, sent: bool, arrives: bool) {
    && Srv.CanDo(h.srv, Srv.SendServerId(sent)) && (sent ==> arrives)
    && (arrives ==> SeatOf(h, h.srv.accept.k).Some? && SeatOf(h, h.srv.accept.k).value < |conns|)
  }

  function HasAnswered(h: Host, sent: bool): Host
    requires Srv.CanDo(h.srv, Srv.SendServerId(sent))
  {
    h.(srv := Srv.Do(h.srv, Srv.SendServerId(sent)))
  }

  function Answered(conns: seq<Conn>, seat: Option<nat>, id: U32, arrives: bool): seq<Conn>
    requires arrives ==> seat.Some? && seat.value < |conns|
  {
    if arrives then conns[seat.value := conns[seat.value].(down := conns[seat.value].down + [IdFrame(id)])] else conns
  }

  /** Reader j receives the next message of the connection its slot is on. */
  predicate CanTake(h: Host, conns: seq<Conn>, j: nat) {
    && Srv.CanDo(h.srv, Srv.Receive(j, true)) && SeatOf(h, h.srv.threads[j].k).Some?
    && var c := SeatOf(h, h.srv.threads[j].k).value;
    && c < |conns| && conns[c].taken < |conns[c].up|
  }

  function Took(h: Host, j: nat, message: Message): Host
    requires Srv.CanDo(h.srv, Srv.Receive(j, true))
  {
    h.(srv := Srv.Do(h.srv, Srv.Receive(j, true)), held := h.held[j := message])
  }

  /** Reader j was started for this connection. */
  predicate IsOwn(h: Host, j: nat, c: nat) {
    && j < |h.srv.threads| && h.srv.threads[j].Running?
    && h.srv.threads[j].ticket < |h.joined| && h.joined[h.srv.threads[j].ticket] == c
  }

  function Taken(conn: Conn, own: bool): Conn {
    conn.(taken := conn.taken + 1, shared := conn.shared || !own)
  }

  predicate CanHandOver(h: Host, conns: seq<Conn>, j: nat) {
    Srv.CanDo(h.srv, Srv.HandUp(j)) && j in h.held && h.held[j].c < |conns|
  }

  function HandedOver(h: Host, j: nat): Host
    requires Srv.CanDo(h.srv, Srv.HandUp(j))
  {
    h.(srv := Srv.Do(h.srv, Srv.HandUp(j)), held := h.held - {j})
  }

  function HandedUp(conn: Conn, i: nat): Conn {
    conn.(handed := conn.handed + [i])
  }

  // ---- the invariant of a server and its connections ----

  /** The accept in hand: nothing was recorded or answered before its handshake, and only a foreign reader can have
      taken anything but its ID frame. */
  ghost predicate HandOk(h: Host, conns: seq<Conn>) {
    Srv.InHand(h.srv.accept).Some? ==>
      && |h.joined| > 0 && h.joined[|h.joined| - 1] < |conns|
      && var conn := conns[h.joined[|h.joined| - 1]];
      && (h.srv.accept.Joined? || h.srv.accept.Identified? ==> conn.down == [])
      && (h.srv.accept.Joined? ==> conn.recorded == None && (!conn.shared ==> conn.taken == 0 && conn.handed == []))
      && (h.srv.accept.Identified? || h.srv.accept.Ready? ==>
            conn.recorded.Some? && (!conn.shared ==> conn.taken == 1 && conn.handed == []))
  }

  ghost predicate JoinedOk(m: nat, h: Host, conns: seq<Conn>) {
    && |h.joined| == h.srv.issued
    && (forall t | 0 <= t < |h.joined| ::
          h.joined[t] < |conns| && conns[h.joined[t]].server == m && conns[h.joined[t]].accepted)
    && (forall t, u | 0 <= t < u < |h.joined| :: h.joined[t] != h.joined[u])
    && (forall c | 0 <= c < |conns| && conns[c].server == m && conns[c].accepted :: c in h.joined)
  }

  /** A reader's own connection is identified, and while no other reader took from it, all that was taken from it is
      handed up but for what the reader holds. */
  ghost predicate ReaderOk(h: Host, conns: seq<Conn>, j: nat) {
    j < |h.srv.threads| && h.srv.threads[j].Running? ==>
      && h.srv.threads[j].ticket < |h.joined|
      && var c := h.joined[h.srv.threads[j].ticket];
      && c < |conns| && conns[c].recorded.Some?
      && (!conns[c].shared ==> |conns[c].handed| + (if j in h.held && h.held[j].c == c then 2 else 1) == conns[c].taken)
  }

  ghost predicate HeldOk(m: nat, h: Host, conns: seq<Conn>, j: nat) {
    j in h.held ==>
      && j < |h.srv.threads| && h.srv.threads[j].Running? && h.srv.threads[j].pc == Srv.HandingUp(true, false)
      && var c := h.held[j].c;
      && var i := h.held[j].i;
      && c < |conns| && conns[c].server == m && i < conns[c].taken && i !in conns[c].handed
      && (conns[c].recorded.Some? ==> i >= 1)
      && (!conns[c].shared ==> IsOwn(h, j, c) && i + 1 == conns[c].taken)
  }

  ghost predicate HeldOnce(h: Host) {
    forall i, j | i in h.held && j in h.held && i != j :: h.held[i] != h.held[j]
  }

  ghost predicate Readers(m: nat, h: Host, conns: seq<Conn>) {
    && (forall j: nat :: ReaderOk(h, conns, j))
    && (forall j: nat :: HeldOk(m, h, conns, j))
    && HeldOnce(h)
  }

  ghost predicate HostOk(m: nat, h: Host, conns: seq<Conn>) {
    Srv.Inv(h.srv) && h.srv.protocol && JoinedOk(m, h, conns) && HandOk(h, conns) && Readers(m, h, conns)
  }

  /** The connections agree on everything the server side looks at. */
  ghost predicate SameForServer(a: Conn, b: Conn) {
    && a.server == b.server && a.accepted == b.accepted && a.taken == b.taken && a.recorded == b.recorded
    && a.down == b.down && a.handed == b.handed && a.shared == b.shared
  }

  /** A server does not notice what happens to other servers' connections, to what clients put on a stream, or that
      clients connect. */
  lemma HostStays(m: nat, h: Host, conns: seq<Conn>, conns': seq<Conn>)
    requires HostOk(m, h, conns) && |conns| <= |conns'|
    requires forall c | 0 <= c < |conns| && conns[c].server == m :: SameForServer(conns[c], conns'[c])
    requires forall c | 0 <= c < |conns| :: conns'[c].server == conns[c].server
    requires forall c | |conns| <= c < |conns'| :: !conns'[c].accepted
    ensures HostOk(m, h, conns')
  {
    forall j: nat
      ensures ReaderOk(h, conns', j) && HeldOk(m, h, conns', j)
    {
      assert ReaderOk(h, conns, j) && HeldOk(m, h, conns, j);
    }
  }

  /** What concerns reader j stays true while it runs on for the same connection and holds the same message, and the
      connections look the same. */
  lemma ReaderStays(m: nat, h: Host, conns: seq<Conn>, srv: Srv.State, conns': seq<Conn>, j: nat)
    requires ReaderOk(h, conns, j) && HeldOk(m, h, conns, j) && |srv.threads| == |h.srv.threads|
    requires j < |srv.threads| && srv.threads[j].Running? ==>
               h.srv.threads[j].Running? && srv.threads[j].ticket == h.srv.threads[j].ticket
    requires j < |srv.threads| && j in h.held ==> srv.threads[j] == h.srv.threads[j]
    requires |conns'| == |conns| && forall c | 0 <= c < |conns| :: SameForServer(conns[c], conns'[c])
    ensures ReaderOk(h.(srv := srv), conns', j) && HeldOk(m, h.(srv := srv), conns', j)
  {
  }

  // ---- steps that touch no stream ----

  /** Readers stay in order when none starts and none that holds a message moves. */
  lemma ReadersGoOn(m: nat, h: Host, conns: seq<Conn>, srv: Srv.State)
    requires Readers(m, h, conns) && |srv.threads| == |h.srv.threads|
    requires forall j | 0 <= j < |srv.threads| && srv.threads[j].Running? ::
               h.srv.threads[j].Running? && srv.threads[j].ticket == h.srv.threads[j].ticket
    requires forall j | 0 <= j < |srv.threads| && h.srv.threads[j].Running?
                        && h.srv.threads[j].pc == Srv.HandingUp(true, false) && j in h.held ::
               srv.threads[j] == h.srv.threads[j]
    ensures Readers(m, h.(srv := srv), conns)
  {
    forall j: nat
      ensures ReaderOk(h.(srv := srv), conns, j) && HeldOk(m, h.(srv := srv), conns, j)
    {
      assert ReaderOk(h, conns, j) && HeldOk(m, h, conns, j);
      ReaderStays(m, h, conns, srv, conns, j);
    }
  }

  lemma OwnReaderStep(m: nat, h: Host, conns: seq<Conn>, a: Srv.Action)
    requires JoinedOk(m, h, conns) && HandOk(h, conns) && Readers(m, h, conns)
    requires Srv.CanDo(h.srv, a) && OfItsOwn(h, a) && Srv.OfReader(a)
    ensures var h' := h.(srv := Srv.Do(h.srv, a));
            JoinedOk(m, h', conns) && HandOk(h', conns) && Readers(m, h', conns)
  {
    Srv.ReaderMoves(h.srv, a);
    ReadersGoOn(m, h, conns, Srv.Do(h.srv, a));
  }

  /** The new reader's connection is the one that was in hand. */
  lemma StartedReader(m: nat, h: Host, conns: seq<Conn>, j: nat)
    requires HostOk(m, h, conns) && Srv.CanDo(h.srv, Srv.StartReader)
    requires j == FirstUnstarted(h.srv.tasks.started, 0) < MAX_TASKS
    ensures var h' := h.(srv := Srv.Do(h.srv, Srv.StartReader));
            ReaderOk(h', conns, j) && HeldOk(m, h', conns, j)
  {
    assert HandOk(h, conns) && HeldOk(m, h, conns, j);
  }

  lemma StartStep(m: nat, h: Host, conns: seq<Conn>)
    requires HostOk(m, h, conns) && Srv.CanDo(h.srv, Srv.StartReader)
    ensures HostOk(m, h.(srv := Srv.Do(h.srv, Srv.StartReader)), conns)
  {
    var h' := h.(srv := Srv.Do(h.srv, Srv.StartReader));
    Srv.StepKeepsInv(h.srv, Srv.StartReader);
    forall j: nat
      ensures ReaderOk(h', conns, j) && HeldOk(m, h', conns, j)
    {
      if j == FirstUnstarted(h.srv.tasks.started, 0) && j < MAX_TASKS {
        StartedReader(m, h, conns, j);
      } else {
        assert ReaderOk(h, conns, j) && HeldOk(m, h, conns, j);
        ReaderStays(m, h, conns, h'.srv, conns, j);
      }
    }
  }

  lemma ReapStep(m: nat, h: Host, conns: seq<Conn>)
    requires JoinedOk(m, h, conns) && Readers(m, h, conns) && Srv.CanDo(h.srv, Srv.Reap)
    ensures var h' := h.(srv := Srv.Do(h.srv, Srv.Reap));
            JoinedOk(m, h', conns) && HandOk(h', conns) && Readers(m, h', conns)
  {
    ReadersGoOn(m, h, conns, Srv.Do(h.srv, Srv.Reap));
  }

  lemma OwnAcceptStep(m: nat, h: Host, conns: seq<Conn>, a: Srv.Action)
    requires JoinedOk(m, h, conns) && HandOk(h, conns) && Readers(m, h, conns)
    requires Srv.CanDo(h.srv, a) && OfItsOwn(h, a) && !Srv.OfReader(a) && !a.StartReader? && !a.Reap?
    requires h.srv.protocol
    ensures var h' := h.(srv := Srv.Do(h.srv, a));
            JoinedOk(m, h', conns) && HandOk(h', conns) && Readers(m, h', conns)
  {
    var srv := Srv.Do(h.srv, a);
    assert srv.threads == h.srv.threads && srv.issued == h.srv.issued;
    ReadersGoOn(m, h, conns, srv);
  }

  lemma OwnStep(m: nat, h: Host, conns: seq<Conn>, a: Srv.Action)
    requires HostOk(m, h, conns) && Srv.CanDo(h.srv, a) && OfItsOwn(h, a)
    ensures HostOk(m, h.(srv := Srv.Do(h.srv, a)), conns)
  {
    if a.StartReader? {
      StartStep(m, h, conns);
    } else {
      Srv.StepKeepsInv(h.srv, a);
      if Srv.OfReader(a) {
        OwnReaderStep(m, h, conns, a);
      } else if a.Reap? {
        ReapStep(m, h, conns);
      } else {
        OwnAcceptStep(m, h, conns, a);
      }
    }
  }

  // ---- steps that touch a stream ----

  /** What holds of a connection nobody has accepted. */
  ghost predicate Untouched(conn: Conn) {
    && !conn.accepted && !conn.shared && conn.taken == 0 && conn.recorded == None
    && conn.down == [] && conn.handed == []
  }

  lemma AcceptStep(m: nat, h: Host, conns: seq<Conn>)
    requires HostOk(m, h, conns) && CanAccept(h, m, conns) && Untouched(conns[NextWaiting(conns, m, 0)])
    ensures var c := NextWaiting(conns, m, 0);
            HostOk(m, AcceptedBy(h, c), conns[c := conns[c].(accepted := true)])
  {
    var c := NextWaiting(conns, m, 0);
    var h' := AcceptedBy(h, c);
    var conns' := conns[c := conns[c].(accepted := true)];
    Srv.StepKeepsInv(h.srv, Srv.Accept(true, true));
    assert c !in h.joined;
    AcceptJoins(m, h, conns, c);
    forall j: nat
      ensures ReaderOk(h', conns', j) && HeldOk(m, h', conns', j)
    {
      assert ReaderOk(h, conns, j) && HeldOk(m, h, conns, j);
    }
  }

  lemma AcceptJoins(m: nat, h: Host, conns: seq<Conn>, c: nat)
    requires JoinedOk(m, h, conns) && c < |conns| && conns[c].server == m && !conns[c].accepted
    requires Srv.CanDo(h.srv, Srv.Accept(true, true)) && FirstClosed(h.srv.server.slots, 0) < MAX_CLIENTS
    ensures JoinedOk(m, AcceptedBy(h, c), conns[c := conns[c].(accepted := true)])
  {
    var h' := AcceptedBy(h, c);
    var conns' := conns[c := conns[c].(accepted := true)];
    forall d | 0 <= d < |conns'| && conns'[d].server == m && conns'[d].accepted
      ensures d in h'.joined
    {
      if d == c {
        assert h'.joined[|h.joined|] == c;
      }
    }
  }

  /** The connection in hand is the one its slot is on, if the slot is still open. */
  lemma HandIsSeat(m: nat, h: Host, conns: seq<Conn>)
    requires HostOk(m, h, conns) && Srv.InHand(h.srv.accept).Some?
    requires SeatOf(h, Srv.InHand(h.srv.accept).value).Some?
    ensures |h.joined| > 0 && SeatOf(h, Srv.InHand(h.srv.accept).value).value == h.joined[|h.joined| - 1]
    ensures forall j | 0 <= j < |h.srv.threads| && h.srv.threads[j].Running? ::
              h.srv.threads[j].ticket < |h.joined| - 1
  {
  }

  /** A connection of no running reader. */
  ghost predicate Unread(h: Host, c: nat) {
    forall j: nat :: !IsOwn(h, j, c)
  }

  lemma HandIsUnread(m: nat, h: Host, conns: seq<Conn>, c: nat)
    requires HostOk(m, h, conns) && Srv.InHand(h.srv.accept).Some?
    requires SeatOf(h, Srv.InHand(h.srv.accept).value) == Some(c)
    ensures Unread(h, c)
  {
    HandIsSeat(m, h, conns);
  }

  /** What concerns readers does not change with what only the accept task moves, on a connection without a reader. */
  lemma ReadersStay(m: nat, h: Host, conns: seq<Conn>, h': Host, conns': seq<Conn>, c: nat)
    requires Readers(m, h, conns) && c < |conns| == |conns'| && Unread(h, c) && conns' == conns[c := conns'[c]]
    requires h' == h.(srv := h'.srv) && h'.srv.threads == h.srv.threads
    requires conns'[c].server == conns[c].server && conns'[c].shared == conns[c].shared
    requires conns'[c].handed == conns[c].handed && conns'[c].taken >= conns[c].taken
    requires conns'[c].recorded == conns[c].recorded || conns[c].taken == 0
    ensures Readers(m, h', conns')
  {
    forall j: nat
      ensures ReaderOk(h', conns', j) && HeldOk(m, h', conns', j)
    {
      assert ReaderOk(h, conns, j) && HeldOk(m, h, conns, j);
      assert !IsOwn(h, j, c);
    }
  }

  /** A handshake receive meets the ID frame first: nobody has taken anything before. */
  lemma TakeIdStep(m: nat, h: Host, conns: seq<Conn>, c: nat, junk: seq<byte>)
    requires HostOk(m, h, conns) && CanTakeId(h, conns, junk) && SeatOf(h, h.srv.accept.k) == Some(c)
    requires conns[c].taken == 0
    ensures HostOk(m, TookId(h, conns[c], junk), conns[c := IdTaken(conns[c], junk)])
  {
    var h' := TookId(h, conns[c], junk);
    var conns' := conns[c := IdTaken(conns[c], junk)];
    Srv.StepKeepsInv(h.srv, Srv.RecvClientId(Some(IdBytes(conns[c], junk))));
    HandIsUnread(m, h, conns, c);
    HandIsSeat(m, h, conns);
    ReadersStay(m, h, conns, h', conns', c);
    assert HeldOnce(h');
    assert JoinedOk(m, h', conns');
    assert HandOk(h', conns') by {
      assert HandOk(h, conns);
    }
  }

  lemma AnswerKeepsHand(m: nat, h: Host, conns: seq<Conn>, id: U32, sent: bool, arrives: bool)
    requires HostOk(m, h, conns) && CanAnswer(h, conns, sent, arrives)
    ensures HandOk(HasAnswered(h, sent), Answered(conns, SeatOf(h, h.srv.accept.k), id, arrives))
  {
    assert HandOk(h, conns);
  }

  lemma AnswerStep(m: nat, h: Host, conns: seq<Conn>, id: U32, sent: bool, arrives: bool)
    requires HostOk(m, h, conns) && CanAnswer(h, conns, sent, arrives)
    ensures HostOk(m, HasAnswered(h, sent), Answered(conns, SeatOf(h, h.srv.accept.k), id, arrives))
  {
    var h' := HasAnswered(h, sent);
    var seat := SeatOf(h, h.srv.accept.k);
    var conns' := Answered(conns, seat, id, arrives);
    Srv.StepKeepsInv(h.srv, Srv.SendServerId(sent));
    AnswerKeepsHand(m, h, conns, id, sent, arrives);
    assert JoinedOk(m, h', conns');
    if arrives {
      HandIsUnread(m, h, conns, seat.value);
      ReadersStay(m, h, conns, h', conns', seat.value);
    } else {
      forall j: nat
        ensures ReaderOk(h', conns', j) && HeldOk(m, h', conns', j)
      {
        assert ReaderOk(h, conns, j) && HeldOk(m, h, conns, j);
      }
    }
  }

  /** A reader's own connection, as long as no other reader took from it, has nothing taken and not handed up. */
  lemma OwnIsHandedUp(m: nat, h: Host, conns: seq<Conn>, j: nat, c: nat)
    requires Srv.Ticketed(h.srv) && JoinedOk(m, h, conns) && Readers(m, h, conns)
    requires IsOwn(h, j, c) && c < |conns| && !conns[c].shared && j !in h.held
    ensures |conns[c].handed| + 1 == conns[c].taken
    ensures forall i: nat | i in h.held :: h.held[i].c != c
  {
    assert ReaderOk(h, conns, j);
    forall i: nat | i in h.held
      ensures h.held[i].c != c
    {
      assert HeldOk(m, h, conns, i);
      if h.held[i].c == c {
        OwnersDiffer(h, i, j, c);
      }
    }
  }

  /** Reader i after reader j has taken a message. */
  lemma TakeKeepsReader(m: nat, h: Host, conns: seq<Conn>, j: nat, c: nat, i: nat)
    requires ReaderOk(h, conns, i) && HeldOk(m, h, conns, i) && CanTake(h, conns, j) && j !in h.held
    requires c < |conns| && conns[c].server == m && c == SeatOf(h, h.srv.threads[j].k).value
    requires forall a | 0 <= a < |conns[c].handed| :: conns[c].handed[a] < conns[c].taken
    requires conns[c].recorded.Some? ==> conns[c].taken >= 1
    requires IsOwn(h, i, c) && i != j ==> !IsOwn(h, j, c)
    requires IsOwn(h, j, c) && !conns[c].shared ==>
               |conns[c].handed| + 1 == conns[c].taken && forall i: nat | i in h.held :: h.held[i].c != c
    ensures var h' := Took(h, j, Message(c, conns[c].taken));
            var conns' := conns[c := Taken(conns[c], IsOwn(h, j, c))];
            ReaderOk(h', conns', i) && HeldOk(m, h', conns', i)
  {
    if i != j {
      assert Took(h, j, Message(c, conns[c].taken)).srv.threads[j] != h.srv.threads[j];
    }
  }

  lemma OwnersDiffer(h: Host, i: nat, j: nat, c: nat)
    requires Srv.Ticketed(h.srv) && IsOwn(h, i, c) && IsOwn(h, j, c)
    requires forall t, u | 0 <= t < u < |h.joined| :: h.joined[t] != h.joined[u]
    ensures i == j
  {
    var (t, u) := (h.srv.threads[i].ticket, h.srv.threads[j].ticket);
    assert t == u;
  }

  /** A reader takes a message, of its own connection or of somebody else's. */
  lemma TakeKeepsReaders(m: nat, h: Host, conns: seq<Conn>, j: nat, c: nat)
    requires Srv.Ticketed(h.srv) && JoinedOk(m, h, conns) && Readers(m, h, conns)
    requires CanTake(h, conns, j) && SeatOf(h, h.srv.threads[j].k) == Some(c)
    requires forall a | 0 <= a < |conns[c].handed| :: conns[c].handed[a] < conns[c].taken
    requires conns[c].recorded.Some? ==> conns[c].taken >= 1
    ensures Readers(m, Took(h, j, Message(c, conns[c].taken)), conns[c := Taken(conns[c], IsOwn(h, j, c))])
  {
    var h' := Took(h, j, Message(c, conns[c].taken));
    var conns' := conns[c := Taken(conns[c], IsOwn(h, j, c))];
    assert HeldOk(m, h, conns, j) && j !in h.held;
    if IsOwn(h, j, c) && !conns[c].shared {
      OwnIsHandedUp(m, h, conns, j, c);
    }
    forall i: nat
      ensures ReaderOk(h', conns', i) && HeldOk(m, h', conns', i)
    {
      assert ReaderOk(h, conns, i) && HeldOk(m, h, conns, i);
      if IsOwn(h, i, c) && IsOwn(h, j, c) {
        OwnersDiffer(h, i, j, c);
      }
      TakeKeepsReader(m, h, conns, j, c, i);
    }
    TakeKeepsHeldOnce(m, h, conns, j, c);
  }

  lemma TakeKeepsHeldOnce(m: nat, h: Host, conns: seq<Conn>, j: nat, c: nat)
    requires Readers(m, h, conns) && CanTake(h, conns, j) && c < |conns|
    ensures HeldOnce(Took(h, j, Message(c, conns[c].taken)))
  {
    assert forall i: nat | i in h.held :: HeldOk(m, h, conns, i);
  }

  lemma TakeStep(m: nat, h: Host, conns: seq<Conn>, j: nat, c: nat)
    requires HostOk(m, h, conns) && CanTake(h, conns, j) && SeatOf(h, h.srv.threads[j].k) == Some(c)
    requires forall a | 0 <= a < |conns[c].handed| :: conns[c].handed[a] < conns[c].taken
    requires conns[c].recorded.Some? ==> conns[c].taken >= 1
    ensures HostOk(m, Took(h, j, Message(c, conns[c].taken)), conns[c := Taken(conns[c], IsOwn(h, j, c))])
  {
    Srv.StepKeepsInv(h.srv, Srv.Receive(j, true));
    TakeKeepsReaders(m, h, conns, j, c);
    TakeKeepsHand(m, h, conns, j, c);
    TakeKeepsJoined(m, h, conns, j, c);
  }

  lemma TakeKeepsJoined(m: nat, h: Host, conns: seq<Conn>, j: nat, c: nat)
    requires JoinedOk(m, h, conns) && CanTake(h, conns, j) && c < |conns|
    ensures JoinedOk(m, Took(h, j, Message(c, conns[c].taken)), conns[c := Taken(conns[c], IsOwn(h, j, c))])
  {
  }

  lemma TakeKeepsHand(m: nat, h: Host, conns: seq<Conn>, j: nat, c: nat)
    requires HostOk(m, h, conns) && CanTake(h, conns, j) && SeatOf(h, h.srv.threads[j].k) == Some(c)
    ensures HandOk(Took(h, j, Message(c, conns[c].taken)), conns[c := Taken(conns[c], IsOwn(h, j, c))])
  {
    if Srv.InHand(h.srv.accept).Some? {
      assert ReaderOk(h, conns, j);
      assert h.srv.threads[j].ticket < |h.joined| - 1;
    }
  }

  /** Reader i after reader j has handed its message up. */
  lemma HandOverKeepsReader(m: nat, h: Host, conns: seq<Conn>, j: nat, i: nat)
    requires ReaderOk(h, conns, i) && HeldOk(m, h, conns, i) && CanHandOver(h, conns, j)
    requires ReaderOk(h, conns, j) && HeldOk(m, h, conns, j)
    requires i in h.held && i != j ==> h.held[i] != h.held[j]
    requires IsOwn(h, i, h.held[j].c) && IsOwn(h, j, h.held[j].c) ==> i == j
    ensures var c := h.held[j].c;
            var h' := HandedOver(h, j);
            ReaderOk(h', conns[c := HandedUp(conns[c], h.held[j].i)], i)
            && HeldOk(m, h', conns[c := HandedUp(conns[c], h.held[j].i)], i)
  {
  }

  lemma HandOverKeepsReaders(m: nat, h: Host, conns: seq<Conn>, j: nat, conns': seq<Conn>)
    requires Srv.Ticketed(h.srv) && JoinedOk(m, h, conns) && Readers(m, h, conns) && CanHandOver(h, conns, j)
    requires conns' == conns[h.held[j].c := HandedUp(conns[h.held[j].c], h.held[j].i)]
    ensures Readers(m, HandedOver(h, j), conns')
  {
    forall i: nat
      ensures ReaderOk(HandedOver(h, j), conns', i) && HeldOk(m, HandedOver(h, j), conns', i)
    {
      assert ReaderOk(h, conns, i) && HeldOk(m, h, conns, i) && ReaderOk(h, conns, j) && HeldOk(m, h, conns, j);
      if IsOwn(h, i, h.held[j].c) && IsOwn(h, j, h.held[j].c) {
        OwnersDiffer(h, i, j, h.held[j].c);
      }
      HandOverKeepsReader(m, h, conns, j, i);
    }
  }

  lemma HandOverStep(m: nat, h: Host, conns: seq<Conn>, j: nat)
    requires HostOk(m, h, conns) && CanHandOver(h, conns, j)
    ensures HostOk(m, HandedOver(h, j), conns[h.held[j].c := HandedUp(conns[h.held[j].c], h.held[j].i)])
  {
    var conns' := conns[h.held[j].c := HandedUp(conns[h.held[j].c], h.held[j].i)];
    Srv.StepKeepsInv(h.srv, Srv.HandUp(j));
    HandOverKeepsReaders(m, h, conns, j, conns');
    HandOverKeepsHand(m, h, conns, j);
    assert JoinedOk(m, HandedOver(h, j), conns') by {
      assert JoinedOk(m, h, conns);
    }
  }

  lemma HandOverKeepsHand(m: nat, h: Host, conns: seq<Conn>, j: nat)
    requires HostOk(m, h, conns) && CanHandOver(h, conns, j)
    ensures HandOk(HandedOver(h, j), conns[h.held[j].c := HandedUp(conns[h.held[j].c], h.held[j].i)])
  {
    if Srv.InHand(h.srv.accept).Some? {
      assert HeldOk(m, h, conns, j);
      assert h.srv.threads[j].ticket < |h.joined| - 1;
    }
  }
}
