/** The connection task: each iteration reads one host line and tries to connect a free socket to it. */
module OpenTask {
  import opened SwarmTypes
  import opened Collections
  import opened Codec
  import opened HostFile
  import opened ClientPool
  import opened ParseBuffer
  import opened ClientSockets

  /** How the network answers one iteration: the connect, the send of our ID, the 24-byte receive of theirs. */
  datatype Answers = Answers(accepted: bool, sent: bool, reply: Option<seq<byte>>)

  predicate AnswersFit(a: Answers) {
    a.reply.Some? ==> |a.reply.value| == 24
  }

  predicate AllSucceed(a: Answers)
    requires AnswersFit(a)
  {
    a.accepted && a.sent && a.reply.Some? && ParseId(a.reply.value).Some?
  }

  function LineKey(line: Line): Key
    requires line.Endpoint?
  {
    KeyOf(line.host, ToU16(line.port))
  }

  ghost function FileKeys(lines: seq<Line>): set<Key> {
    set i | 0 <= i < |lines| && lines[i].Endpoint? :: LineKey(lines[i])
  }

  function Address(line: Line): (string, U16)
    requires line.Endpoint?
  {
    (line.host, ToU16(line.port))
  }

  ghost function FileAddresses(lines: seq<Line>): set<(string, U16)> {
    set i | 0 <= i < |lines| && lines[i].Endpoint? :: Address(lines[i])
  }

  /** The connection task between iterations. */
  datatype Task = Task(pool: Pool, buf: HostBuffer, cursor: nat)

  /** A free slot, already given its endpoint, after the connection attempt. */
  function Attempted(slot: Slot, a: Answers): Slot
    requires AnswersFit(a)
  {
    if AllSucceed(a) then slot.(open := true, id := ParseId(a.reply.value).value) else Closed(slot)
  }

  /** Whether the line leads to a connection attempt. */
  predicate Tries(t: Task, line: Line)
    requires LineFits(line)
  {
    && line.Endpoint?
    && !ConnectedToHost(t.pool, Parsed(t.buf, line), ToU16(line.port))
    && FirstClosed(t.pool, 0) < MAX_CLIENTS
  }

  /** One iteration on a file that has lines. */
  function Iterated(t: Task, lines: seq<Line>, a: Answers): Task
    requires |lines| > 0 && LinesFit(lines) && AnswersFit(a)
  {
    var i := Fetched(|lines|, t.cursor);
    var line := lines[i];
    var buf := Parsed(t.buf, line);
    if Tries(t, line) then
      var k := FirstClosed(t.pool, 0);
      var slot := t.pool[k].(host := CString(buf), port := ToU16(line.port));
      Task(t.pool[k := Attempted(slot, a)], buf, i + 1)
    else
      Task(t.pool, buf, i + 1)
  }

  /** The loop body of the connection task. `frames` are the frames it put on the wire. */
  method RunIteration(manager: ClientManager, hosts: Reader, buf: array<char>, deviceId: U32, a: Answers)
    returns (connected: bool, frames: seq<seq<byte>>)
    requires manager.Valid() && hosts.Valid() && buf.Length == HOST_BUFFER && AnswersFit(a)
    requires LinesFit(hosts.lines)
    modifies manager.sockets, hosts, buf
    ensures hosts.Valid()
    ensures |hosts.lines| == 0 ==> manager.View() == old(manager.View()) && buf[..] == old(buf[..]) && frames == []
    ensures |hosts.lines| > 0 ==>
              Task(manager.View(), buf[..], hosts.cursor)
              == Iterated(old(Task(manager.View(), buf[..], hosts.cursor)), hosts.lines, a)
    ensures |hosts.lines| > 0 ==>
              var tries := old(Tries(Task(manager.View(), buf[..], hosts.cursor),
                                     hosts.lines[Fetched(|hosts.lines|, hosts.cursor)]));
              && connected == (tries && AllSucceed(a))
              && frames == if tries && a.accepted then [IdFrame(deviceId)] else []
  {
    connected, frames := false, [];
    ghost var before := manager.View();
    var entry := hosts.GetEntry();
    assert manager.View() == before;
    if entry == None {
      return;
    }
    var line := entry.value;
    Store(buf, line);
    assert manager.View() == before;
    if line.Malformed? {
      return;
    }
    var already := manager.CheckConnectedToHost(buf, ToU16(line.port));
    if already {
      return;
    }
    var index := manager.GetFreeSocketIndex();
    if index >= 0 {
      connected, frames := Attempt(manager, index, buf, ToU16(line.port), deviceId, a);
    }
  }

  /** The string conversion into the parse buffer. */
  method Store(buf: array<char>, line: Line)
    requires buf.Length == HOST_BUFFER && LineFits(line)
    modifies buf
    ensures buf[..] == Parsed(old(buf[..]), line)
  {
    var text := Text(line);
    if line.Endpoint? || text != "" {
      forall i | 0 <= i < |text| {
        buf[i] := text[i];
      }
      buf[|text|] := NUL;
    }
  }

  /** The connection attempt on slot `index`. */
  method Attempt(manager: ClientManager, index: nat, buf: array<char>, port: U16, deviceId: U32, a: Answers)
    returns (connected: bool, frames: seq<seq<byte>>)
    requires manager.Valid() && index < MAX_CLIENTS && AnswersFit(a)
    modifies manager.sockets[index]
    ensures var slot := old(manager.View())[index].(host := CString(buf[..]), port := port);
            manager.View() == old(manager.View())[index := Attempted(slot, a)]
    ensures connected == AllSucceed(a)
    ensures frames == if a.accepted then [IdFrame(deviceId)] else []
  {
    frames := [];
    var socket := manager.sockets[index];
    socket.SetHost(buf, port);
    var status := socket.Open(a.accepted);
    if status.Success? {
      var data;
      status, data := socket.SendClientId(deviceId, a.sent);
      frames := [data];
      if status.Success? {
        status := socket.RecvServerId(a.reply);
      }
    }
    if !status.Success? {
      manager.Close(index);
    }
    connected := status.Success?;
  }

  // ---- what one iteration does ----

  /** The endpoint check takes the slot for connected to what the buffer holds. */
  predicate LooksConnected(slot: Slot, buf: HostBuffer, port: int) {
    && slot.open && (slot.port - port) % 0x1_0000 == 0 && FirstEight(slot.host) <= buf
    && forall i | |slot.host| <= i < 8 :: buf[i] == NUL
  }

  predicate SomeLooksConnected(p: Pool, buf: HostBuffer, port: int) {
    exists j :: 0 <= j < MAX_CLIENTS && LooksConnected(p[j], buf, port)
  }

  lemma CheckExact(p: Pool, buf: HostBuffer, port: int)
    ensures ConnectedToHost(p, buf, ToU16(port)) <==> SomeLooksConnected(p, buf, port)
  {
    PortCut(port);
    forall j | 0 <= j < MAX_CLIENTS
      ensures p[j].open && HostMatches(p[j], buf, ToU16(port)) <==> LooksConnected(p[j], buf, port)
    {
      MatchesRaw(p[j], buf, ToU16(port));
    }
  }

  /** The handshake goes through: connect and send succeed, and the answer comes with one of its tag bytes right. */
  predicate GoesThrough(a: Answers)
    requires AnswersFit(a)
  {
    a.accepted && a.sent && a.reply.Some? && (a.reply.value[0] == TAG_I || a.reply.value[1] == TAG_D)
  }

  /** An iteration attempts its line on the first free socket if no socket looks connected to it. The socket gets the
      line's host and port whatever comes of it, and is open with the four ID bytes of the answer exactly if the
      handshake goes through; otherwise it is closed and has no ID. */
  lemma IterationAttempts(t: Task, lines: seq<Line>, a: Answers, k: nat)
    requires |lines| > 0 && LinesFit(lines) && AnswersFit(a)
    requires var line := lines[Fetched(|lines|, t.cursor)];
             line.Endpoint? && !SomeLooksConnected(t.pool, Parsed(t.buf, line), line.port)
    requires k < MAX_CLIENTS && !t.pool[k].open && forall j | 0 <= j < k :: t.pool[j].open
    ensures var line := lines[Fetched(|lines|, t.cursor)];
            var after := Iterated(t, lines, a).pool;
            && (forall j | 0 <= j < MAX_CLIENTS && j != k :: after[j] == t.pool[j])
            && after[k].host == line.host && (after[k].port - line.port) % 0x1_0000 == 0
            && (after[k].open <==> GoesThrough(a))
            && (if after[k].open then Encode(after[k].id) == a.reply.value[2..6] else after[k].id == 0)
  {
    var line := lines[Fetched(|lines|, t.cursor)];
    var slot := t.pool[k].(host := line.host, port := ToU16(line.port));
    CheckExact(t.pool, Parsed(t.buf, line), line.port);
    IterationTries(t, lines, a, k);
    PortCut(line.port);
    AttemptedExact(slot, a);
    assert Iterated(t, lines, a).pool[k] == Attempted(slot, a);
  }

  lemma IterationTries(t: Task, lines: seq<Line>, a: Answers, k: nat)
    requires |lines| > 0 && LinesFit(lines) && AnswersFit(a)
    requires var line := lines[Fetched(|lines|, t.cursor)];
             line.Endpoint? && !ConnectedToHost(t.pool, Parsed(t.buf, line), ToU16(line.port))
    requires k < MAX_CLIENTS && !t.pool[k].open && forall j | 0 <= j < k :: t.pool[j].open
    ensures var line := lines[Fetched(|lines|, t.cursor)];
            var slot := t.pool[k].(host := line.host, port := ToU16(line.port));
            Iterated(t, lines, a).pool == t.pool[k := Attempted(slot, a)]
  {
    WrittenIsCString(t.buf, lines[Fetched(|lines|, t.cursor)].host);
    assert FirstClosed(t.pool, 0) == k;
  }

  lemma AttemptedExact(slot: Slot, a: Answers)
    requires AnswersFit(a)
    ensures var after := Attempted(slot, a);
            && after.host == slot.host && after.port == slot.port && (after.open <==> GoesThrough(a))
            && (if after.open then Encode(after.id) == a.reply.value[2..6] else after.id == 0)
  {
    if GoesThrough(a) {
      EncodeDecode(a.reply.value[2..6]);
      assert Decode(a.reply.value[2..]) == Decode(a.reply.value[2..6]);
    }
  }

  /** Otherwise it leaves the sockets alone. */
  lemma IterationPasses(t: Task, lines: seq<Line>, a: Answers)
    requires |lines| > 0 && LinesFit(lines) && AnswersFit(a)
    requires var line := lines[Fetched(|lines|, t.cursor)];
             || line.Malformed?
             || SomeLooksConnected(t.pool, Parsed(t.buf, line), line.port)
             || forall j | 0 <= j < MAX_CLIENTS :: t.pool[j].open
    ensures Iterated(t, lines, a).pool == t.pool
  {
    var line := lines[Fetched(|lines|, t.cursor)];
    if line.Endpoint? {
      CheckExact(t.pool, Parsed(t.buf, line), line.port);
    }
  }

  // ---- what a series of iterations achieves ----

  /** What every iteration keeps: no key twice, no ID on a closed slot, and only endpoints of the file. */
  ghost predicate PoolFrom(p: Pool, lines: seq<Line>) {
    EndpointsUnique(p) && ClosedHaveNoId(p) && OpenAddresses(p) <= FileAddresses(lines)
  }

  /** Two open slots with the same key are on the same endpoint. */
  ghost predicate KeysMeanAddresses(p: Pool) {
    forall j, k | 0 <= j < MAX_CLIENTS && 0 <= k < MAX_CLIENTS && p[j].open && p[k].open
                  && SlotKey(p[j]) == SlotKey(p[k]) ::
      SlotAddress(p[j]) == SlotAddress(p[k])
  }

  /** A slot that is opened keeps that, if its key is new or its host too short to be cut. */
  lemma NewKeyMeansAddress(p: Pool, k: nat, slot: Slot)
    requires k < MAX_CLIENTS && KeysMeanAddresses(p) && Plain(p) && NUL !in slot.host
    requires slot.open && (HostTrusted(slot.host) ==> SlotKey(slot) !in OpenKeys(p))
    ensures KeysMeanAddresses(p[k := slot])
  {
    var q := p[k := slot];
    forall j | 0 <= j < MAX_CLIENTS && j != k && q[j].open && SlotKey(q[j]) == SlotKey(slot)
      ensures SlotAddress(q[j]) == SlotAddress(slot)
    {
      assert q[j] == p[j] && SlotKey(p[j]) in OpenKeys(p);
      ShortKeyMeansHost(slot.host, q[j].host, slot.port, q[j].port);
    }
  }

  lemma AddressesGiveKeys(p: Pool, lines: seq<Line>)
    requires OpenAddresses(p) <= FileAddresses(lines)
    ensures OpenKeys(p) <= FileKeys(lines)
  {
    forall x | x in OpenKeys(p)
      ensures x in FileKeys(lines)
    {
      var k :| 0 <= k < |p| && p[k].open && SlotKey(p[k]) == x;
      assert SlotAddress(p[k]) in OpenAddresses(p);
      var i :| 0 <= i < |lines| && lines[i].Endpoint? && Address(lines[i]) == SlotAddress(p[k]);
      assert LineKey(lines[i]) == x;
    }
  }

  /** On a line that reads clean the endpoint check is a lookup of the line's key. */
  lemma CheckFindsKey(p: Pool, buf: HostBuffer, line: Line)
    requires line.Endpoint? && LineFits(line) && Clean(buf, line)
    ensures ConnectedToHost(p, Parsed(buf, line), ToU16(line.port)) <==> LineKey(line) in OpenKeys(p)
    ensures CString(Parsed(buf, line)) == line.host
  {
    WrittenIsCString(buf, line.host);
    var raw := Parsed(buf, line);
    forall k | 0 <= k < MAX_CLIENTS
      ensures HostMatches(p[k], raw, ToU16(line.port)) <==> SlotKey(p[k]) == LineKey(line)
    {
      HostMatchesKey(p[k], raw, line.host, ToU16(line.port));
    }
  }

  /** Opening a closed slot adds exactly its endpoint, and its key. */
  lemma OpenSlotsUpdate(p: Pool, k: nat, slot: Slot)
    requires k < MAX_CLIENTS && !p[k].open
    ensures OpenAddresses(p[k := slot]) == OpenAddresses(p) + if slot.open then {SlotAddress(slot)} else {}
    ensures OpenKeys(p[k := slot]) == OpenKeys(p) + if slot.open then {SlotKey(slot)} else {}
  {
    var q := p[k := slot];
    assert q[k] == slot;
    assert forall i | 0 <= i < |p| && p[i].open :: q[i] == p[i];
    assert forall i | 0 <= i < |q| && q[i].open && i != k :: p[i] == q[i];
  }

  /** Opening a closed slot on a key that nobody is on leaves every key at one slot. */
  lemma UniqueUpdate(p: Pool, k: nat, slot: Slot)
    requires k < MAX_CLIENTS && EndpointsUnique(p) && (slot.open ==> SlotKey(slot) !in OpenKeys(p))
    ensures EndpointsUnique(p[k := slot])
  {
    var q := p[k := slot];
    forall i, j | 0 <= i < j < MAX_CLIENTS && q[i].open && q[j].open
      ensures SlotKey(q[i]) != SlotKey(q[j])
    {
      assert i != k ==> SlotKey(p[i]) in OpenKeys(p);
      assert j != k ==> SlotKey(p[j]) in OpenKeys(p);
    }
  }

  /** Whatever the network answers, an iteration keeps the pool's invariant. */
  lemma IterationKeepsPool(t: Task, lines: seq<Line>, a: Answers)
    requires |lines| > 0 && ReadsClean(lines, t.buf, t.cursor) && AnswersFit(a) && PoolFrom(t.pool, lines)
    ensures PoolFrom(Iterated(t, lines, a).pool, lines)
    ensures OpenAddresses(t.pool) <= OpenAddresses(Iterated(t, lines, a).pool)
    ensures OpenKeys(t.pool) <= OpenKeys(Iterated(t, lines, a).pool)
    ensures ReadsClean(lines, Iterated(t, lines, a).buf, Iterated(t, lines, a).cursor)
  {
    ReadsCleanOn(lines, t.buf, t.cursor);
    var line := lines[Fetched(|lines|, t.cursor)];
    if Tries(t, line) {
      CheckFindsKey(t.pool, t.buf, line);
      var k := FirstClosed(t.pool, 0);
      var slot := t.pool[k].(host := line.host, port := ToU16(line.port));
      OpenSlotsUpdate(t.pool, k, Attempted(slot, a));
      UniqueUpdate(t.pool, k, Attempted(slot, a));
      assert SlotAddress(slot) == Address(line);
    }
  }

  /** With at most ten keys, an iteration whose attempt succeeds connects its line, to the line's own endpoint, unless
      some line with the same key is connected already, and disconnects nothing. */
  lemma IterationConnects(t: Task, lines: seq<Line>, a: Answers)
    requires |lines| > 0 && ReadsClean(lines, t.buf, t.cursor) && AnswersFit(a) && AllSucceed(a)
    requires PoolFrom(t.pool, lines)
    requires |FileKeys(lines)| <= MAX_CLIENTS
    ensures var line := lines[Fetched(|lines|, t.cursor)];
            var after := Iterated(t, lines, a).pool;
            && OpenAddresses(after) == OpenAddresses(t.pool)
                 + (if line.Endpoint? && LineKey(line) !in OpenKeys(t.pool) then {Address(line)} else {})
            && (line.Endpoint? ==> LineKey(line) in OpenKeys(after))
    ensures var line := lines[Fetched(|lines|, t.cursor)];
            line.Endpoint? && 0 <= line.port < 0x1_0000 && LineKey(line) !in OpenKeys(t.pool) ==>
              OpenAddresses(Iterated(t, lines, a).pool) == OpenAddresses(t.pool) + {(line.host, line.port)}
  {
    ReadsCleanOn(lines, t.buf, t.cursor);
    var line := lines[Fetched(|lines|, t.cursor)];
    if line.Endpoint? {
      PortCut(line.port);
      CheckFindsKey(t.pool, t.buf, line);
      if LineKey(line) !in OpenKeys(t.pool) {
        AddressesGiveKeys(t.pool, lines);
        FreeSlotExists(t.pool, FileKeys(lines), LineKey(line));
        var k := FirstClosed(t.pool, 0);
        var slot := t.pool[k].(host := line.host, port := ToU16(line.port));
        OpenSlotsUpdate(t.pool, k, Attempted(slot, a));
      }
    }
  }

  /** A series of iterations, one per element of `answers`. */
  function Repeated(t: Task, lines: seq<Line>, answers: seq<Answers>): Task
    requires |lines| > 0 && LinesFit(lines)
    requires forall a | a in answers :: AnswersFit(a)
    decreases |answers|
  {
    if answers == [] then t else Repeated(Iterated(t, lines, answers[0]), lines, answers[1..])
  }

  /** In a series of successful iterations everything connected stays connected, and the key of the i-th line read is
      connected at the end, by some line. */
  lemma {:induction false} SeriesConnects(t: Task, lines: seq<Line>, answers: seq<Answers>)
    requires |lines| > 0 && ReadsClean(lines, t.buf, t.cursor) && PoolFrom(t.pool, lines)
    requires |FileKeys(lines)| <= MAX_CLIENTS
    requires t.cursor <= |lines|
    requires forall a | a in answers :: AnswersFit(a) && AllSucceed(a)
    ensures PoolFrom(Repeated(t, lines, answers).pool, lines)
    ensures OpenAddresses(t.pool) <= OpenAddresses(Repeated(t, lines, answers).pool)
    ensures OpenKeys(t.pool) <= OpenKeys(Repeated(t, lines, answers).pool)
    ensures forall i: nat | i < |answers| && lines[ReadAt(|lines|, t.cursor, i)].Endpoint? ::
              LineKey(lines[ReadAt(|lines|, t.cursor, i)]) in OpenKeys(Repeated(t, lines, answers).pool)
    decreases |answers|
  {
    if answers != [] {
      var next := Iterated(t, lines, answers[0]);
      IterationKeepsPool(t, lines, answers[0]);
      IterationConnects(t, lines, answers[0]);
      SeriesConnects(next, lines, answers[1..]);
      forall i: nat | i < |answers| && lines[ReadAt(|lines|, t.cursor, i)].Endpoint?
        ensures LineKey(lines[ReadAt(|lines|, t.cursor, i)]) in OpenKeys(Repeated(t, lines, answers).pool)
      {
        if i > 0 {
          assert ReadAt(|lines|, t.cursor, i) == ReadAt(|lines|, next.cursor, i - 1);
        }
      }
    }
  }

  // ---- full meshes ----

  /** The slot is open on the line's own endpoint. */
  predicate OnLine(slot: Slot, line: Line)
    requires line.Endpoint?
  {
    slot.open && SlotAddress(slot) == Address(line)
  }

  /** Slot k and no other is open on the line's endpoint. */
  ghost predicate IsSlotFor(p: Pool, line: Line, k: nat)
    requires line.Endpoint?
  {
    k < MAX_CLIENTS && OnLine(p[k], line) && forall j | 0 <= j < MAX_CLIENTS && OnLine(p[j], line) :: j == k
  }

  ghost predicate OneSlotFor(p: Pool, line: Line)
    requires line.Endpoint?
  {
    exists k: nat :: IsSlotFor(p, line, k)
  }

  /** Every line's endpoint, whole host and port, has exactly one open slot. */
  ghost predicate FullMesh(p: Pool, lines: seq<Line>) {
    forall i | 0 <= i < |lines| && lines[i].Endpoint? :: OneSlotFor(p, lines[i])
  }

  /** Slot k and no other is open on this host and this port; ports count up to multiples of 2^16. */
  ghost predicate AloneOn(p: Pool, host: string, port: int, k: nat) {
    && k < MAX_CLIENTS && p[k].open && p[k].host == host && (p[k].port - port) % 0x1_0000 == 0
    && (0 <= port < 0x1_0000 ==> p[k].port == port)
    && forall j | 0 <= j < MAX_CLIENTS && j != k && p[j].open && p[j].host == host :: (p[j].port - port) % 0x1_0000 != 0
  }

  lemma IsSlotForIff(p: Pool, line: Line, k: nat)
    requires line.Endpoint?
    ensures IsSlotFor(p, line, k) <==> AloneOn(p, line.host, line.port, k)
  {
    PortCut(line.port);
    forall j | 0 <= j < MAX_CLIENTS
      ensures (p[j].port - line.port) % 0x1_0000 == 0 <==> p[j].port == ToU16(line.port)
    {
    }
  }

  /** A full mesh, said of the numbers in the file. */
  lemma MeshOnPorts(p: Pool, lines: seq<Line>)
    ensures FullMesh(p, lines)
            <==> forall i | 0 <= i < |lines| && lines[i].Endpoint? ::
                   exists k: nat :: AloneOn(p, lines[i].host, lines[i].port, k)
  {
    forall i | 0 <= i < |lines| && lines[i].Endpoint?
      ensures OneSlotFor(p, lines[i]) <==> exists k: nat :: AloneOn(p, lines[i].host, lines[i].port, k)
    {
      forall k: nat
        ensures IsSlotFor(p, lines[i], k) <==> AloneOn(p, lines[i].host, lines[i].port, k)
      {
        IsSlotForIff(p, lines[i], k);
      }
    }
  }

  /** Different endpoints of the file differ in what the driver tells them apart by: the first eight characters of the
      host and the port. */
  ghost predicate KeysTellApart(lines: seq<Line>) {
    forall i, j | 0 <= i < |lines| && 0 <= j < |lines| && lines[i].Endpoint? && lines[j].Endpoint?
                  && LineKey(lines[i]) == LineKey(lines[j]) ::
      Address(lines[i]) == Address(lines[j])
  }

  /** Where the keys tell endpoints apart, the slot that has a line's key is the line's own. */
  lemma KeyMeansSlot(p: Pool, lines: seq<Line>, i: nat)
    requires PoolFrom(p, lines) && KeysTellApart(lines)
    requires i < |lines| && lines[i].Endpoint? && LineKey(lines[i]) in OpenKeys(p)
    ensures OneSlotFor(p, lines[i])
  {
    var k :| 0 <= k < |p| && p[k].open && SlotKey(p[k]) == LineKey(lines[i]);
    assert SlotAddress(p[k]) in OpenAddresses(p);
    var j :| 0 <= j < |lines| && lines[j].Endpoint? && Address(lines[j]) == SlotAddress(p[k]);
    assert LineKey(lines[j]) == LineKey(lines[i]);
    NoOtherSlot(p, lines[i], k);
  }

  lemma NoOtherSlot(p: Pool, line: Line, k: nat)
    requires EndpointsUnique(p) && line.Endpoint? && k < MAX_CLIENTS && OnLine(p[k], line)
    ensures IsSlotFor(p, line, k)
  {
    forall j | 0 <= j < MAX_CLIENTS && OnLine(p[j], line)
      ensures j == k
    {
      SameKey(p[j], p[k]);
    }
  }

  lemma SameKey(a: Slot, b: Slot)
    requires SlotAddress(a) == SlotAddress(b)
    ensures SlotKey(a) == SlotKey(b)
  {
  }

  /** As many successful iterations as the file has lines give every line its own slot, from any pool and cursor, if
      the keys tell the endpoints apart. */
  lemma {:induction false} MeshConverges(t: Task, lines: seq<Line>, answers: seq<Answers>)
    requires |lines| > 0 && ReadsClean(lines, t.buf, t.cursor) && PoolFrom(t.pool, lines)
    requires |FileKeys(lines)| <= MAX_CLIENTS && KeysTellApart(lines)
    requires t.cursor <= |lines|
    requires |answers| >= |lines| && forall a | a in answers :: AnswersFit(a) && AllSucceed(a)
    ensures FullMesh(Repeated(t, lines, answers).pool, lines)
    ensures forall i | 0 <= i < |lines| && lines[i].Endpoint? && 0 <= lines[i].port < 0x1_0000 ::
              exists k: nat :: AloneOn(Repeated(t, lines, answers).pool, lines[i].host, lines[i].port, k)
  {
    SeriesConnects(t, lines, answers);
    forall i: nat | i < |lines| && lines[i].Endpoint?
      ensures OneSlotFor(Repeated(t, lines, answers).pool, lines[i])
    {
      EveryLineOnce(|lines|, t.cursor, i);
      var k: nat :| k < |lines| && ReadAt(|lines|, t.cursor, k) == i;
      assert lines[ReadAt(|lines|, t.cursor, k)].Endpoint?;
      KeyMeansSlot(Repeated(t, lines, answers).pool, lines, i);
    }
    MeshOnPorts(Repeated(t, lines, answers).pool, lines);
  }

  /** Once every line has its slot no iteration, whatever the network answers, changes any socket. */
  lemma FullMeshStays(t: Task, lines: seq<Line>, a: Answers)
    requires |lines| > 0 && ReadsClean(lines, t.buf, t.cursor) && AnswersFit(a) && FullMesh(t.pool, lines)
    ensures Iterated(t, lines, a).pool == t.pool
  {
    ReadsCleanOn(lines, t.buf, t.cursor);
    var line := lines[Fetched(|lines|, t.cursor)];
    if line.Endpoint? {
      CheckFindsKey(t.pool, t.buf, line);
      assert OneSlotFor(t.pool, line);
      var k: nat :| IsSlotFor(t.pool, line, k);
      assert SlotKey(t.pool[k]) == LineKey(line);
    }
  }

  /** A pool that has a slot for every line has ten keys at most, and they tell the endpoints apart, as far as they do
      among the pool's slots. */
  lemma MeshTellsApart(p: Pool, lines: seq<Line>)
    requires KeysMeanAddresses(p) && FullMesh(p, lines)
    ensures |FileKeys(lines)| <= MAX_CLIENTS && KeysTellApart(lines)
  {
    forall x | x in FileKeys(lines)
      ensures x in OpenKeys(p)
    {
      var i :| 0 <= i < |lines| && lines[i].Endpoint? && LineKey(lines[i]) == x;
      assert OneSlotFor(p, lines[i]);
      var k: nat :| IsSlotFor(p, lines[i], k);
      assert SlotKey(p[k]) == x;
    }
    OpenKeysAtMost(p);
    SubsetSize(FileKeys(lines), OpenKeys(p));
    forall i, j | 0 <= i < |lines| && 0 <= j < |lines| && lines[i].Endpoint? && lines[j].Endpoint?
                  && LineKey(lines[i]) == LineKey(lines[j])
      ensures Address(lines[i]) == Address(lines[j])
    {
      assert OneSlotFor(p, lines[i]) && OneSlotFor(p, lines[j]);
      var k: nat :| IsSlotFor(p, lines[i], k);
      var l: nat :| IsSlotFor(p, lines[j], l);
      assert SlotKey(p[k]) == SlotKey(p[l]);
    }
  }

  // ---- a mesh from any file ----

  /** Whatever the parse buffer holds behind the line, the check takes no other key for the line's. */
  lemma CheckIsSound(p: Pool, buf: HostBuffer, line: Line)
    requires Plain(p) && line.Endpoint? && LineFits(line)
    ensures ConnectedToHost(p, Parsed(buf, line), ToU16(line.port)) ==> LineKey(line) in OpenKeys(p)
  {
    var raw := Parsed(buf, line);
    forall k | 0 <= k < MAX_CLIENTS && HostMatches(p[k], raw, ToU16(line.port))
      ensures SlotKey(p[k]) == LineKey(line)
    {
      MatchMeansKey(p[k], buf, line.host, ToU16(line.port));
    }
  }

  lemma MatchMeansKey(slot: Slot, buf: HostBuffer, host: string, port: U16)
    requires NUL !in slot.host && HostFits(host) && HostMatches(slot, Written(buf, host), port)
    ensures SlotKey(slot) == KeyOf(host, port)
  {
    var (raw, a, b) := (Written(buf, host), SlotKey(slot).host, KeyOf(host, port).host);
    if |host| < COMPARED {
      assert raw[|host|] == CharAt(slot.host, |host|);
      EndsWhere(slot.host, |host|);
    }
    assert forall i | 0 <= i < COMPARED :: a[i] == CharAt(slot.host, i) && b[i] == CharAt(host, i);
    assert forall i | 0 <= i < COMPARED :: raw[i] == CharAt(slot.host, i);
    assert a == b;
  }

  /** Where the keys tell endpoints apart, a line whose key is taken has a slot of its own. */
  lemma KeyMeansOpen(p: Pool, lines: seq<Line>, i: nat)
    requires OpenAddresses(p) <= FileAddresses(lines) && KeysTellApart(lines) && i < |lines| && lines[i].Endpoint?
    ensures LineKey(lines[i]) in OpenKeys(p) ==> Address(lines[i]) in OpenAddresses(p)
  {
    if LineKey(lines[i]) in OpenKeys(p) {
      var k :| 0 <= k < |p| && p[k].open && SlotKey(p[k]) == LineKey(lines[i]);
      assert SlotAddress(p[k]) in OpenAddresses(p);
      var j :| 0 <= j < |lines| && lines[j].Endpoint? && Address(lines[j]) == SlotAddress(p[k]);
      assert LineKey(lines[j]) == LineKey(lines[i]);
    }
  }

  /** A task that has nothing open twice. */
  ghost predicate InOrder(t: Task, lines: seq<Line>) {
    t.cursor <= |lines| && PoolFrom(t.pool, lines) && Plain(t.pool)
  }

  /** One iteration can give its line a slot and leave everything else as it is, if the attempt succeeds exactly for
      a line that has none. */
  lemma IterationSettles(t: Task, lines: seq<Line>, ok: Answers) returns (a: Answers)
    requires |lines| > 0 && LinesFit(lines) && InOrder(t, lines) && AnswersFit(ok) && AllSucceed(ok)
    requires |FileKeys(lines)| <= MAX_CLIENTS && KeysTellApart(lines)
    ensures AnswersFit(a) && InOrder(Iterated(t, lines, a), lines)
    ensures OpenAddresses(t.pool) <= OpenAddresses(Iterated(t, lines, a).pool)
    ensures var line := lines[Fetched(|lines|, t.cursor)];
            line.Endpoint? ==> Address(line) in OpenAddresses(Iterated(t, lines, a).pool)
  {
    var i := Fetched(|lines|, t.cursor);
    var line := lines[i];
    if line.Endpoint? && Address(line) !in OpenAddresses(t.pool) {
      a := ok;
      NewLineSettles(t, lines, a);
    } else {
      a := Answers(false, false, None);
      if Tries(t, line) {
        FailureSettles(t, lines, a);
      }
    }
  }

  lemma NewLineSettles(t: Task, lines: seq<Line>, a: Answers)
    requires |lines| > 0 && LinesFit(lines) && InOrder(t, lines) && AnswersFit(a) && AllSucceed(a)
    requires |FileKeys(lines)| <= MAX_CLIENTS && KeysTellApart(lines)
    requires var line := lines[Fetched(|lines|, t.cursor)]; line.Endpoint? && Address(line) !in OpenAddresses(t.pool)
    ensures InOrder(Iterated(t, lines, a), lines)
    ensures OpenAddresses(Iterated(t, lines, a).pool)
            == OpenAddresses(t.pool) + {Address(lines[Fetched(|lines|, t.cursor)])}
  {
    var line := lines[Fetched(|lines|, t.cursor)];
    KeyMeansOpen(t.pool, lines, Fetched(|lines|, t.cursor));
    CheckIsSound(t.pool, t.buf, line);
    AddressesGiveKeys(t.pool, lines);
    FreeSlotExists(t.pool, FileKeys(lines), LineKey(line));
    WrittenIsCString(t.buf, line.host);
    var k := FirstClosed(t.pool, 0);
    var slot := Attempted(t.pool[k].(host := line.host, port := ToU16(line.port)), a);
    OpenSlotsUpdate(t.pool, k, slot);
    assert SlotAddress(slot) == Address(line) && SlotKey(slot) == LineKey(line);
    UniqueUpdate(t.pool, k, slot);
  }

  lemma FailureSettles(t: Task, lines: seq<Line>, a: Answers)
    requires |lines| > 0 && LinesFit(lines) && InOrder(t, lines) && AnswersFit(a) && !AllSucceed(a)
    requires Tries(t, lines[Fetched(|lines|, t.cursor)])
    ensures InOrder(Iterated(t, lines, a), lines)
    ensures OpenAddresses(Iterated(t, lines, a).pool) == OpenAddresses(t.pool)
  {
    var line := lines[Fetched(|lines|, t.cursor)];
    WrittenIsCString(t.buf, line.host);
    var k := FirstClosed(t.pool, 0);
    var slot := Attempted(t.pool[k].(host := line.host, port := ToU16(line.port)), a);
    OpenSlotsUpdate(t.pool, k, slot);
    UniqueUpdate(t.pool, k, slot);
  }

  /** A pool in which every endpoint of the file is open, and no key twice, is a full mesh. */
  lemma AllOpenIsMesh(p: Pool, lines: seq<Line>)
    requires EndpointsUnique(p) && FileAddresses(lines) <= OpenAddresses(p)
    ensures FullMesh(p, lines)
  {
    forall i | 0 <= i < |lines| && lines[i].Endpoint?
      ensures OneSlotFor(p, lines[i])
    {
      assert Address(lines[i]) in OpenAddresses(p);
      var k: nat :| k < |p| && p[k].open && SlotAddress(p[k]) == Address(lines[i]);
      NoOtherSlot(p, lines[i], k);
    }
  }

  // ---- what an unclean file leads to ----

  /** The task has read k lines since it started. */
  ghost predicate HasRead(t: Task, lines: seq<Line>, k: nat)
    requires |lines| > 0 && LinesFit(lines)
  {
    t.buf == BufferAfter(lines, Cleared(), 0, k) && Fetched(|lines|, t.cursor) == ReadAt(|lines|, 0, k)
  }

  lemma IterationReads(t: Task, lines: seq<Line>, a: Answers, k: nat)
    requires |lines| > 0 && LinesFit(lines) && AnswersFit(a) && HasRead(t, lines, k)
    ensures HasRead(Iterated(t, lines, a), lines, k + 1)
  {
    ReadAtNext(|lines|, 0, k);
  }

  /** The open sockets of the two pools are the same. */
  ghost predicate SameOpen(p: Pool, q: Pool) {
    forall k | 0 <= k < MAX_CLIENTS :: p[k].open == q[k].open && (p[k].open ==> p[k] == q[k])
  }

  /** While no connect succeeds the open sockets stay as they are. */
  lemma {:induction false} FailuresOpenNothing(t: Task, lines: seq<Line>, answers: seq<Answers>, k: nat)
    requires |lines| > 0 && LinesFit(lines) && HasRead(t, lines, k)
    requires forall a | a in answers :: AnswersFit(a) && !a.accepted
    ensures SameOpen(t.pool, Repeated(t, lines, answers).pool)
    ensures HasRead(Repeated(t, lines, answers), lines, k + |answers|)
    decreases |answers|
  {
    if answers != [] {
      IterationReads(t, lines, answers[0], k);
      FailuresOpenNothing(Iterated(t, lines, answers[0]), lines, answers[1..], k + 1);
    }
  }

  /** Behind a short host the check meets older characters and takes the endpoint for a new one. */
  lemma DirtyLineConnectsAgain(t: Task, lines: seq<Line>, a: Answers, j: nat)
    requires |lines| > 0 && LinesFit(lines) && AnswersFit(a) && AllSucceed(a)
    requires var line := lines[Fetched(|lines|, t.cursor)];
             && line.Endpoint? && !Clean(t.buf, line)
             && j < MAX_CLIENTS && t.pool[j].open && t.pool[j].host == line.host && t.pool[j].port == ToU16(line.port)
    requires forall k | 0 <= k < MAX_CLIENTS && k != j :: !t.pool[k].open
    ensures var q := Iterated(t, lines, a).pool;
            var k := FirstClosed(t.pool, 0);
            && k < MAX_CLIENTS && k != j && !EndpointsUnique(q) && q[j] == t.pool[j]
            && q[k] == Slot(true, ParseId(a.reply.value).value, t.pool[j].host, t.pool[j].port)
  {
    var line := lines[Fetched(|lines|, t.cursor)];
    var raw := Parsed(t.buf, line);
    WrittenIsCString(t.buf, line.host);
    assert !HostMatches(t.pool[j], raw, ToU16(line.port));
    assert Tries(t, line) by {
      assert !t.pool[if j == 0 then 1 else 0].open;
    }
    var k := FirstClosed(t.pool, 0);
    var q := Iterated(t, lines, a).pool;
    assert q[j] == t.pool[j] && q[k].open && SlotKey(q[k]) == SlotKey(q[j]);
  }

  /** With nothing open the first line that connects gets a socket, whatever the check meets. */
  lemma FirstConnects(t: Task, lines: seq<Line>, a: Answers)
    requires |lines| > 0 && LinesFit(lines) && AnswersFit(a) && AllSucceed(a)
    requires lines[Fetched(|lines|, t.cursor)].Endpoint?
    requires forall k | 0 <= k < MAX_CLIENTS :: !t.pool[k].open
    ensures var line := lines[Fetched(|lines|, t.cursor)];
            var q := Iterated(t, lines, a).pool;
            && q[0] == Slot(true, ParseId(a.reply.value).value, line.host, ToU16(line.port))
            && forall k | 0 < k < MAX_CLIENTS :: !q[k].open
  {
    WrittenIsCString(t.buf, lines[Fetched(|lines|, t.cursor)].host);
    assert FirstClosed(t.pool, 0) == 0;
  }
}
