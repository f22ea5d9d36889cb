/** The connection task and a sender sharing the client sockets, as interleaved atomic steps. */
module ClientRuns {
  import opened SwarmTypes
  import opened Codec
  import opened HostFile
  import opened ClientPool
  import opened ParseBuffer
  import opened OpenTask
  import opened Transitions

  /** Where the connection task stands; k is the slot it is working on. */
  datatype OpenPc =
    | Reading
    | Checking(line: Line)
    | Picking(line: Line)
    | Hosting(k: nat, line: Line)
    | Connecting(k: nat)
    | SendingId(k: nat)
    | ReceivingId(k: nat)
    | Closing(k: nat)

  /** Where the sender stands; its buffer and receiver are kept as long as it needs them. */
  datatype SendPc =
    | NoSend
    | Routing(msg: seq<byte>, receiver: U32)
    | LookingUp(msg: seq<byte>, receiver: U32)
    | Transmitting(msg: seq<byte>, receiver: U32)
    | Breaking(receiver: U32)
    | CastLooking(msg: seq<byte>, i: nat)
    | CastAsking(msg: seq<byte>, i: nat)
    | CastTransmitting(msg: seq<byte>, i: nat)

  datatype State = State(pool: Pool, buf: HostBuffer, cursor: nat, opening: OpenPc, sending: SendPc)

  /** Steps of the connection task, then steps of the sender, each with what the environment answers. */
  datatype Action =
    | Fetch
    | CheckHost
    | Pick
    | SetHost
    | Connect(accepted: bool)
    | SendId(sent: bool)
    | RecvId(reply: Option<seq<byte>>)
    | CloseFailed
    | Begin(msg: seq<byte>, receiver: U32)
    | AskMask(allowed: bool)
    | CheckId
    | Transmit(status: SocketStatus, brokenPipe: bool)
    | CloseBroken
    | CastLook
    | CastAsk(allowed: bool)
    | CastTransmit

  ghost function Init(): State {
    State(seq(MAX_CLIENTS, _ => Slot(false, 0, "", 0)), Cleared(), 0, Reading, NoSend)
  }

  predicate SlotOk(opening: OpenPc) {
    match opening
    case Reading => true
    case Checking(line) => line.Endpoint?
    case Picking(line) => line.Endpoint?
    case Hosting(k, line) => k < MAX_CLIENTS && line.Endpoint?
    case Connecting(k) => k < MAX_CLIENTS
    case SendingId(k) => k < MAX_CLIENTS
    case ReceivingId(k) => k < MAX_CLIENTS
    case Closing(k) => k < MAX_CLIENTS
  }

  /** When a step can be taken. The mask never lets ID 0 through. */
  predicate CanDo(lines: seq<Line>, s: State, a: Action) {
    && SlotOk(s.opening)
    && match a
       case Fetch => s.opening.Reading? && |lines| > 0 && LineFits(lines[Fetched(|lines|, s.cursor)])
       case CheckHost => s.opening.Checking?
       case Pick => s.opening.Picking?
       case SetHost => s.opening.Hosting?
       case Connect(_) => s.opening.Connecting?
       case SendId(_) => s.opening.SendingId?
       case RecvId(reply) => s.opening.ReceivingId? && (reply.Some? ==> |reply.value| == 24)
       case CloseFailed => s.opening.Closing?
       case Begin(_, _) => s.sending.NoSend?
       case AskMask(allowed) => s.sending.Routing? && (allowed ==> s.sending.receiver != 0)
       case CheckId => s.sending.LookingUp?
       case Transmit(_, _) => s.sending.Transmitting?
       case CloseBroken => s.sending.Breaking?
       case CastLook => s.sending.CastLooking?
       case CastAsk(allowed) =>
         s.sending.CastAsking? && s.sending.i < MAX_CLIENTS && (allowed ==> s.pool[s.sending.i].id != 0)
       case CastTransmit => s.sending.CastTransmitting? && s.sending.i < MAX_CLIENTS
  }

  function Do(lines: seq<Line>, s: State, a: Action): State
    requires CanDo(lines, s, a)
  {
    match a
    case Fetch =>
      var i := Fetched(|lines|, s.cursor);
      var line := lines[i];
      s.(buf := Parsed(s.buf, line), cursor := i + 1, opening := if line.Endpoint? then Checking(line) else Reading)
    case CheckHost =>
      var line := s.opening.line;
      s.(opening := if ConnectedToHost(s.pool, s.buf, ToU16(line.port)) then Reading else Picking(line))
    case Pick =>
      var k := FirstClosed(s.pool, 0);
      s.(opening := if k < MAX_CLIENTS then Hosting(k, s.opening.line) else Reading)
    case SetHost =>
      var (k, line) := (s.opening.k, s.opening.line);
      s.(pool := s.pool[k := s.pool[k].(host := CString(s.buf), port := ToU16(line.port))], opening := Connecting(k))
    case Connect(accepted) =>
      var k := s.opening.k;
      s.(pool := s.pool[k := s.pool[k].(open := accepted)], opening := if accepted then SendingId(k) else Closing(k))
    case SendId(sent) =>
      var k := s.opening.k;
      if sent then s.(opening := ReceivingId(k))
      else s.(pool := s.pool[k := s.pool[k].(open := false)], opening := Closing(k))
    case RecvId(reply) =>
      var k := s.opening.k;
      if reply.Some? && ParseId(reply.value).Some? then
        s.(pool := s.pool[k := s.pool[k].(id := ParseId(reply.value).value)], opening := Reading)
      else
        s.(pool := s.pool[k := s.pool[k].(open := false)], opening := Closing(k))
    case CloseFailed =>
      s.(pool := s.pool[s.opening.k := Closed(s.pool[s.opening.k])], opening := Reading)
    case Begin(msg, receiver) => s.(sending := Routing(msg, receiver))
    case AskMask(allowed) =>
      var (msg, r) := (s.sending.msg, s.sending.receiver);
      s.(sending := if r == BROADCAST then CastLooking(msg, 0) else if allowed then LookingUp(msg, r) else NoSend)
    case CheckId =>
      var (msg, r) := (s.sending.msg, s.sending.receiver);
      s.(sending := if ConnectedToId(s.pool, r) then Transmitting(msg, r) else NoSend)
    case Transmit(status, brokenPipe) =>
      s.(sending := if status.OtherError? && brokenPipe then Breaking(s.sending.receiver) else NoSend)
    case CloseBroken =>
      var k := LookUp(s.pool, s.sending.receiver);
      s.(pool := s.pool[k := Closed(s.pool[k])], sending := NoSend)
    case CastLook =>
      var (msg, i) := (s.sending.msg, s.sending.i);
      s.(sending := if i >= MAX_CLIENTS then NoSend
                    else if s.pool[i].open then CastAsking(msg, i) else CastLooking(msg, i + 1))
    case CastAsk(allowed) =>
      var (msg, i) := (s.sending.msg, s.sending.i);
      s.(sending := if allowed then CastTransmitting(msg, i) else CastLooking(msg, i + 1))
    case CastTransmit => s.(sending := CastLooking(s.sending.msg, s.sending.i + 1))
  }

  ghost function Step(lines: seq<Line>): (State, Action) -> Option<State> {
    (s: State, a: Action) => if CanDo(lines, s, a) then Some(Do(lines, s, a)) else None
  }

  /** The driver can get from s to t. */
  ghost predicate Leads(lines: seq<Line>, s: State, t: State) {
    Reaches(Step(lines), s, t)
  }

  ghost predicate Reachable(lines: seq<Line>, s: State) {
    Leads(lines, Init(), s)
  }

  // ---- the invariant: sockets and sender, whatever the file ----

  /** What the connection task knows of the slot it is working on. */
  ghost predicate OpeningInv(s: State) {
    match s.opening
    case Reading => true
    case Checking(line) => line.Endpoint?
    case Picking(line) => line.Endpoint?
    case Hosting(k, line) => line.Endpoint? && k < MAX_CLIENTS && !s.pool[k].open
    case Connecting(k) => k < MAX_CLIENTS && !s.pool[k].open
    case SendingId(k) => k < MAX_CLIENTS && s.pool[k].open && s.pool[k].id == 0
    case ReceivingId(k) => k < MAX_CLIENTS && s.pool[k].open && s.pool[k].id == 0
    case Closing(k) => k < MAX_CLIENTS && !s.pool[k].open
  }

  ghost predicate SendingInv(s: State) {
    match s.sending
    case LookingUp(_, r) => r != 0
    case Transmitting(_, r) => r != 0 && ConnectedToId(s.pool, r)
    case Breaking(r) => r != 0 && ConnectedToId(s.pool, r)
    case CastTransmitting(_, i) => i < MAX_CLIENTS && s.pool[i].id != 0
    case _ => true
  }

  ghost predicate Inv(s: State) {
    ClosedHaveNoId(s.pool) && OpeningInv(s) && SendingInv(s)
  }

  predicate OfOpenTask(a: Action) {
    a.Fetch? || a.CheckHost? || a.Pick? || a.SetHost? || a.Connect? || a.SendId? || a.RecvId? || a.CloseFailed?
  }

  /** Those of its steps that touch a slot. */
  predicate OnSlot(a: Action) {
    a.SetHost? || a.Connect? || a.SendId? || a.RecvId? || a.CloseFailed?
  }

  /** Changing slot k, which is not on an ID the sender relies on, leaves the sender's facts standing. */
  lemma SenderUndisturbed(p: Pool, k: nat, slot: Slot, id: U32)
    requires k < MAX_CLIENTS && id != 0 && p[k].id == 0
    requires ConnectedToId(p, id)
    ensures ConnectedToId(p[k := slot], id)
  {
    var j :| 0 <= j < MAX_CLIENTS && p[j].open && p[j].id == id;
    assert p[k := slot][j] == p[j];
  }

  lemma OpenTaskKeepsSender(lines: seq<Line>, s: State, a: Action)
    requires Inv(s) && CanDo(lines, s, a) && OfOpenTask(a)
    ensures SendingInv(Do(lines, s, a))
  {
    var t := Do(lines, s, a);
    if OnSlot(a) {
      var k := s.opening.k;
      assert s.pool[k].id == 0;
      assert t.pool == s.pool[k := t.pool[k]];
      if s.sending.Transmitting? || s.sending.Breaking? {
        SenderUndisturbed(s.pool, k, t.pool[k], s.sending.receiver);
      }
    }
  }

  lemma SenderKeepsInv(lines: seq<Line>, s: State, a: Action)
    requires Inv(s) && CanDo(lines, s, a) && !OfOpenTask(a)
    ensures Inv(Do(lines, s, a))
  {
    if a.CloseBroken? {
      LookUpAgrees(s.pool, s.sending.receiver);
    }
  }

  lemma StepKeepsInv(lines: seq<Line>, s: State, a: Action)
    requires Inv(s) && CanDo(lines, s, a)
    ensures Inv(Do(lines, s, a))
  {
    if OfOpenTask(a) {
      OpenTaskKeepsSender(lines, s, a);
    } else {
      SenderKeepsInv(lines, s, a);
    }
  }

  lemma ReachableInv(lines: seq<Line>, s: State)
    requires Reachable(lines, s)
    ensures Inv(s)
  {
    var inv := (x: State) => Inv(x);
    forall x: State, a | inv(x) && Step(lines)(x, a).Some?
      ensures inv(Step(lines)(x, a).value)
    {
      StepKeepsInv(lines, x, a);
    }
    InvariantHolds(Step(lines), inv, Init(), s);
  }

  // ---- the invariant: what sockets and parse buffer have from the file ----

  /** The parse buffer holds a line of the file, whatever it holds behind it. */
  ghost predicate Parses(lines: seq<Line>, buf: HostBuffer, line: Line) {
    && line.Endpoint? && HostFits(line.host) && CString(buf) == line.host && Address(line) in FileAddresses(lines)
    && (HostTrusted(line.host) ==> Holds(buf, line))
  }

  /** Comparing with the parse buffer is comparing with the line's key. */
  ghost predicate Holds(buf: HostBuffer, line: Line) {
    && line.Endpoint?
    && CString(buf) == line.host
    && forall slot: Slot :: HostMatches(slot, buf, ToU16(line.port)) <==> SlotKey(slot) == LineKey(line)
  }

  /** The endpoint check can be relied on for trusted hosts. */
  ghost predicate OpeningFile(lines: seq<Line>, s: State) {
    match s.opening
    case Checking(line) => Parses(lines, s.buf, line)
    case Picking(line) =>
      Parses(lines, s.buf, line) && (HostTrusted(line.host) ==> LineKey(line) !in OpenKeys(s.pool))
    case Hosting(k, line) =>
      Parses(lines, s.buf, line) && (HostTrusted(line.host) ==> LineKey(line) !in OpenKeys(s.pool))
    case Connecting(k) =>
      k < MAX_CLIENTS ==>
        && SlotAddress(s.pool[k]) in FileAddresses(lines)
        && (HostTrusted(s.pool[k].host) ==> SlotKey(s.pool[k]) !in OpenKeys(s.pool))
    case _ => true
  }

  ghost predicate FileInv(lines: seq<Line>, s: State) {
    && s.cursor <= |lines| && OpenAddresses(s.pool) <= FileAddresses(lines)
    && Plain(s.pool) && KeysMeanAddresses(s.pool) && OpeningFile(lines, s)
  }

  /** Closing a slot, or touching one that is closed before and after, opens nothing. */
  lemma NothingOpens(p: Pool, k: nat, slot: Slot)
    requires k < MAX_CLIENTS && (slot.open ==> p[k].open && SlotAddress(slot) == SlotAddress(p[k]))
    ensures OpenAddresses(p[k := slot]) <= OpenAddresses(p) && OpenKeys(p[k := slot]) <= OpenKeys(p)
    ensures EndpointsUnique(p) ==> EndpointsUnique(p[k := slot])
    ensures KeysMeanAddresses(p) ==> KeysMeanAddresses(p[k := slot])
  {
    var q := p[k := slot];
    assert forall i | 0 <= i < |q| && q[i].open :: p[i].open && SlotAddress(p[i]) == SlotAddress(q[i]);
  }

  lemma ParsedHolds(buf: HostBuffer, line: Line)
    requires line.Endpoint? && LineFits(line) && Clean(buf, line)
    ensures Holds(Parsed(buf, line), line)
  {
    WrittenIsCString(buf, line.host);
    forall slot: Slot
      ensures HostMatches(slot, Parsed(buf, line), ToU16(line.port)) <==> SlotKey(slot) == LineKey(line)
    {
      HostMatchesKey(slot, Parsed(buf, line), line.host, ToU16(line.port));
    }
  }

  lemma FetchParses(lines: seq<Line>, buf: HostBuffer, i: nat)
    requires i < |lines| && lines[i].Endpoint? && LineFits(lines[i])
    ensures Parses(lines, Parsed(buf, lines[i]), lines[i])
  {
    WrittenIsCString(buf, lines[i].host);
    if HostTrusted(lines[i].host) {
      CleanIff(buf, lines[i]);
      ParsedHolds(buf, lines[i]);
    }
  }

  /** The check finds the key of the line that the buffer holds. */
  lemma OpenKeyIsConnected(p: Pool, buf: HostBuffer, line: Line)
    requires Holds(buf, line)
    ensures LineKey(line) in OpenKeys(p) ==> ConnectedToHost(p, buf, ToU16(line.port))
  {
    if LineKey(line) in OpenKeys(p) {
      var k :| 0 <= k < |p| && p[k].open && SlotKey(p[k]) == LineKey(line);
      assert HostMatches(p[k], buf, ToU16(line.port));
    }
  }

  lemma SlotStepKeepsFile(lines: seq<Line>, s: State, a: Action)
    requires Inv(s) && FileInv(lines, s) && CanDo(lines, s, a) && OnSlot(a)
    ensures FileInv(lines, Do(lines, s, a))
  {
    var (t, k) := (Do(lines, s, a), s.opening.k);
    assert t.pool == s.pool[k := t.pool[k]];
    if a.Connect? && a.accepted {
      OpenSlotsUpdate(s.pool, k, t.pool[k]);
      NewKeyMeansAddress(s.pool, k, t.pool[k]);
    } else {
      NothingOpens(s.pool, k, t.pool[k]);
    }
    if a.SetHost? {
      assert SlotAddress(t.pool[k]) == Address(s.opening.line);
      assert SlotKey(t.pool[k]) == LineKey(s.opening.line);
    }
  }

  lemma StepKeepsFile(lines: seq<Line>, s: State, a: Action)
    requires Inv(s) && FileInv(lines, s) && CanDo(lines, s, a)
    ensures FileInv(lines, Do(lines, s, a))
  {
    if OnSlot(a) {
      SlotStepKeepsFile(lines, s, a);
    } else if a.CloseBroken? {
      LookUpAgrees(s.pool, s.sending.receiver);
      var k := LookUp(s.pool, s.sending.receiver);
      NothingOpens(s.pool, k, Closed(s.pool[k]));
    } else if a.Fetch? {
      var i := Fetched(|lines|, s.cursor);
      if lines[i].Endpoint? {
        FetchParses(lines, s.buf, i);
      }
    } else if a.CheckHost? && HostTrusted(s.opening.line.host) && Do(lines, s, a).opening.Picking? {
      OpenKeyIsConnected(s.pool, s.buf, s.opening.line);
    }
  }

  lemma ReachableFile(lines: seq<Line>, s: State)
    requires Reachable(lines, s)
    ensures Inv(s) && FileInv(lines, s)
  {
    assert OpenAddresses(Init().pool) == {};
    var inv := (x: State) => Inv(x) && FileInv(lines, x);
    forall x: State, a | inv(x) && Step(lines)(x, a).Some?
      ensures inv(Step(lines)(x, a).value)
    {
      StepKeepsInv(lines, x, a);
      StepKeepsFile(lines, x, a);
    }
    InvariantHolds(Step(lines), inv, Init(), s);
  }

  // ---- the invariant: one socket per key, with a safe file ----

  /** With a safe file the check can be relied on for every host. */
  ghost predicate OpeningSafe(s: State) {
    match s.opening
    case Checking(line) => Holds(s.buf, line)
    case Picking(line) =>
      line.Endpoint? && CString(s.buf) == line.host && LineKey(line) !in OpenKeys(s.pool)
    case Hosting(k, line) =>
      line.Endpoint? && CString(s.buf) == line.host && LineKey(line) !in OpenKeys(s.pool)
    case Connecting(k) => k < MAX_CLIENTS ==> SlotKey(s.pool[k]) !in OpenKeys(s.pool)
    case _ => true
  }

  ghost predicate SafeInv(lines: seq<Line>, s: State) {
    && Inv(s) && s.cursor <= |lines| && ReadsClean(lines, s.buf, s.cursor) && EndpointsUnique(s.pool)
    && OpeningSafe(s)
  }

  lemma SlotStepKeepsSafe(lines: seq<Line>, s: State, a: Action)
    requires SafeInv(lines, s) && CanDo(lines, s, a) && OnSlot(a)
    ensures EndpointsUnique(Do(lines, s, a).pool) && OpeningSafe(Do(lines, s, a))
  {
    var (t, k) := (Do(lines, s, a), s.opening.k);
    assert t.pool == s.pool[k := t.pool[k]];
    if a.Connect? && a.accepted {
      assert SlotKey(t.pool[k]) == SlotKey(s.pool[k]);
      UniqueUpdate(s.pool, k, t.pool[k]);
    } else {
      NothingOpens(s.pool, k, t.pool[k]);
    }
    if a.SetHost? {
      assert SlotKey(t.pool[k]) == LineKey(s.opening.line);
    }
  }

  lemma StepKeepsSafe(lines: seq<Line>, s: State, a: Action)
    requires SafeInv(lines, s) && CanDo(lines, s, a)
    ensures SafeInv(lines, Do(lines, s, a))
  {
    StepKeepsInv(lines, s, a);
    if OnSlot(a) {
      SlotStepKeepsSafe(lines, s, a);
    } else if a.CloseBroken? {
      LookUpAgrees(s.pool, s.sending.receiver);
      var k := LookUp(s.pool, s.sending.receiver);
      NothingOpens(s.pool, k, Closed(s.pool[k]));
    } else if a.Fetch? {
      ReadsCleanOn(lines, s.buf, s.cursor);
      var line := lines[Fetched(|lines|, s.cursor)];
      if line.Endpoint? {
        ParsedHolds(s.buf, line);
      }
    } else if a.CheckHost? && Do(lines, s, a).opening.Picking? {
      OpenKeyIsConnected(s.pool, s.buf, s.opening.line);
    }
  }

  lemma ReachableSafe(lines: seq<Line>, s: State)
    requires FileSafe(lines) && Reachable(lines, s)
    ensures SafeInv(lines, s)
  {
    assert OpenAddresses(Init().pool) == {};
    SafeIffReadsClean(lines);
    var inv := (x: State) => SafeInv(lines, x);
    forall x: State, a | inv(x) && Step(lines)(x, a).Some?
      ensures inv(Step(lines)(x, a).value)
    {
      StepKeepsSafe(lines, x, a);
    }
    InvariantHolds(Step(lines), inv, Init(), s);
  }

  lemma SafePool(lines: seq<Line>, s: State)
    requires FileSafe(lines) && Reachable(lines, s)
    ensures SafeInv(lines, s) && PoolFrom(s.pool, lines)
  {
    ReachableFile(lines, s);
    ReachableSafe(lines, s);
  }

  // ---- what holds in every run ----

  /** Whenever the sender is about to send or to close, the lookup that ignores the open flag still ends at an open
      socket of the receiver's: the connection task cannot have moved it, and slot 0 is never a fallback. */
  lemma SenderHitsItsReceiver(lines: seq<Line>, s: State)
    requires Reachable(lines, s)
    ensures s.sending.Transmitting? || s.sending.Breaking? ==>
              var k := LookUp(s.pool, s.sending.receiver);
              s.pool[k].open && s.pool[k].id == s.sending.receiver && s.sending.receiver != 0
    ensures s.sending.CastTransmitting? ==>
              s.sending.i < MAX_CLIENTS && s.pool[s.sending.i].open && s.pool[s.sending.i].id != 0
  {
    ReachableInv(lines, s);
    if s.sending.Transmitting? || s.sending.Breaking? {
      LookUpAgrees(s.pool, s.sending.receiver);
    }
  }

  // ---- the loop body is a path through the steps ----

  lemma Extend(lines: seq<Line>, s0: State, s: State, a: Action)
    requires Leads(lines, s0, s) && CanDo(lines, s, a)
    ensures Leads(lines, s0, Do(lines, s, a))
  {
    ReachesNext(Step(lines), s0, s, a, Do(lines, s, a));
  }

  ghost function AsTask(s: State): Task {
    Task(s.pool, s.buf, s.cursor)
  }

  /** The connection task gets these answers. */
  predicate Told(a: Answers, step: Action) {
    match step
    case Connect(accepted) => accepted == a.accepted
    case SendId(sent) => sent == a.sent
    case RecvId(reply) => reply == a.reply
    case Fetch => false
    case _ => OfOpenTask(step)
  }

  /** The connection task's steps behind its fetch, with these answers. It has one choice at most in every state, and
      none at the top of its loop. */
  ghost function TurnStep(lines: seq<Line>, a: Answers): (State, Action) -> Option<State> {
    (s: State, step: Action) => if CanDo(lines, s, step) && Told(a, step) then Some(Do(lines, s, step)) else None
  }

  lemma TurnIsOneWay(lines: seq<Line>, a: Answers, s: State, x: Action, y: Action)
    requires TurnStep(lines, a)(s, x).Some? && TurnStep(lines, a)(s, y).Some?
    ensures x == y && !s.opening.Reading?
  {
  }

  ghost predicate Turns(lines: seq<Line>, a: Answers, s: State, t: State) {
    Reaches(TurnStep(lines, a), s, t)
  }

  lemma TurnGoes(lines: seq<Line>, a: Answers, s0: State, s: State, step: Action)
    requires Turns(lines, a, s0, s) && CanDo(lines, s, step) && Told(a, step)
    ensures Turns(lines, a, s0, Do(lines, s, step))
  {
    ReachesNext(TurnStep(lines, a), s0, s, step, Do(lines, s, step));
  }

  /** From the top of its loop the connection task, on the answers of the iteration and no others, comes back to the top
      with what the loop body leaves. Here and in the following, s0 is where the run began. */
  lemma IterationIsPath(lines: seq<Line>, s0: State, s: State, a: Answers) returns (t: State)
    requires |lines| > 0 && LinesFit(lines) && AnswersFit(a)
    requires Leads(lines, s0, s) && s.opening.Reading?
    ensures Leads(lines, s0, t) && t.opening.Reading? && t.sending == s.sending
    ensures CanDo(lines, s, Fetch) && Turns(lines, a, Do(lines, s, Fetch), t)
    ensures AsTask(t) == Iterated(AsTask(s), lines, a)
  {
    Extend(lines, s0, s, Fetch);
    var u := Do(lines, s, Fetch);
    t := TurnIsPath(lines, u, a);
    ReachesAlso(TurnStep(lines, a), Step(lines), u, t);
    ReachesOn(Step(lines), s0, u, t);
    assert AsTask(t).pool == Iterated(AsTask(s), lines, a).pool;
  }

  /** What is left of the loop body behind the fetch. */
  lemma TurnIsPath(lines: seq<Line>, s: State, a: Answers) returns (t: State)
    requires AnswersFit(a) && SlotOk(s.opening) && (s.opening.Reading? || s.opening.Checking?)
    ensures Turns(lines, a, s, t) && t.opening.Reading?
    ensures t == s.(pool := t.pool, opening := Reading)
    ensures t.pool == if s.opening.Reading? || ConnectedToHost(s.pool, s.buf, ToU16(s.opening.line.port))
                         || FirstClosed(s.pool, 0) == MAX_CLIENTS then s.pool
                      else
                        var (k, port) := (FirstClosed(s.pool, 0), ToU16(s.opening.line.port));
                        s.pool[k := Attempted(s.pool[k].(host := CString(s.buf), port := port), a)]
  {
    ReachesItself(TurnStep(lines, a), s);
    t := s;
    if t.opening.Reading? {
      return;
    }
    TurnGoes(lines, a, s, t, CheckHost);
    t := Do(lines, t, CheckHost);
    if t.opening.Reading? {
      return;
    }
    TurnGoes(lines, a, s, t, Pick);
    t := Do(lines, t, Pick);
    if t.opening.Reading? {
      return;
    }
    t := AttemptIsPath(lines, s, t, a);
  }

  lemma AttemptIsPath(lines: seq<Line>, s0: State, s: State, a: Answers) returns (t: State)
    requires AnswersFit(a) && Turns(lines, a, s0, s) && s.opening.Hosting? && SlotOk(s.opening)
    ensures Turns(lines, a, s0, t) && t.opening.Reading?
    ensures var k := s.opening.k;
            var slot := s.pool[k].(host := CString(s.buf), port := ToU16(s.opening.line.port));
            t == s.(pool := s.pool[k := Attempted(slot, a)], opening := Reading)
  {
    TurnGoes(lines, a, s0, s, SetHost);
    t := Do(lines, s, SetHost);
    TurnGoes(lines, a, s0, t, Connect(a.accepted));
    t := Do(lines, t, Connect(a.accepted));
    if a.accepted {
      TurnGoes(lines, a, s0, t, SendId(a.sent));
      t := Do(lines, t, SendId(a.sent));
      if a.sent {
        TurnGoes(lines, a, s0, t, RecvId(a.reply));
        t := Do(lines, t, RecvId(a.reply));
      }
    }
    if t.opening.Closing? {
      TurnGoes(lines, a, s0, t, CloseFailed);
      t := Do(lines, t, CloseFailed);
    }
    assert t.pool == s.pool[s.opening.k := t.pool[s.opening.k]];
  }

  lemma {:induction false} SeriesIsPath(lines: seq<Line>, s0: State, s: State, answers: seq<Answers>) returns (t: State)
    requires |lines| > 0 && LinesFit(lines) && Leads(lines, s0, s) && s.opening.Reading?
    requires forall a | a in answers :: AnswersFit(a)
    ensures Leads(lines, s0, t) && t.opening.Reading?
    ensures AsTask(t) == Repeated(AsTask(s), lines, answers)
    decreases |answers|
  {
    t := s;
    if answers != [] {
      t := IterationIsPath(lines, s0, s, answers[0]);
      t := SeriesIsPath(lines, s0, t, answers[1..]);
    }
  }

  /** The step by which an attempt comes nearer to its end without a connection. */
  function EarlyEnd(opening: OpenPc): Action {
    match opening
    case Checking(_) => CheckHost
    case Picking(_) => Pick
    case Hosting(_, _) => SetHost
    case Connecting(_) => Connect(false)
    case SendingId(_) => SendId(false)
    case ReceivingId(_) => RecvId(None)
    case _ => CloseFailed
  }

  function StepsLeft(opening: OpenPc): nat {
    match opening
    case Reading => 0
    case Checking(_) => 5
    case Picking(_) => 4
    case Hosting(_, _) => 3
    case Connecting(_) => 2
    case SendingId(_) => 2
    case ReceivingId(_) => 2
    case Closing(_) => 1
  }

  /** Such a step touches no slot that has an ID, and opens none. */
  lemma EarlyEndStep(lines: seq<Line>, s: State)
    requires Inv(s) && !s.opening.Reading?
    ensures CanDo(lines, s, EarlyEnd(s.opening))
    ensures var t := Do(lines, s, EarlyEnd(s.opening));
            && Inv(t) && StepsLeft(t.opening) < StepsLeft(s.opening)
            && t == s.(pool := t.pool, opening := t.opening)
            && (forall k | 0 <= k < MAX_CLIENTS && s.pool[k].id != 0 :: t.pool[k] == s.pool[k])
            && (EndpointsUnique(s.pool) ==> EndpointsUnique(t.pool))
  {
    var a := EarlyEnd(s.opening);
    StepKeepsInv(lines, s, a);
    if OnSlot(a) {
      var (t, k) := (Do(lines, s, a), s.opening.k);
      assert t.pool == s.pool[k := t.pool[k]];
      NothingOpens(s.pool, k, t.pool[k]);
    }
  }

  /** The attempt in progress can end, without a connection. */
  lemma {:induction false} AttemptCanEnd(lines: seq<Line>, s0: State, s: State) returns (t: State)
    requires Leads(lines, s0, s) && Inv(s)
    ensures Leads(lines, s0, t) && t.opening.Reading? && t.sending == s.sending && t.buf == s.buf
    ensures t.cursor == s.cursor && (EndpointsUnique(s.pool) ==> EndpointsUnique(t.pool))
    decreases StepsLeft(s.opening)
  {
    t := s;
    if !s.opening.Reading? {
      EarlyEndStep(lines, s);
      Extend(lines, s0, s, EarlyEnd(s.opening));
      t := AttemptCanEnd(lines, s0, Do(lines, s, EarlyEnd(s.opening)));
    }
  }

  /** From every reachable state, whatever went wrong before and wherever the connection task stands, it can finish
      its attempt, and one pass over the file whose connects succeed then gives every line of a safe file its own slot,
      if no more than ten keys tell the endpoints apart. */
  lemma EveryRunCanConverge(lines: seq<Line>, s: State, answers: seq<Answers>) returns (t: State)
    requires |lines| > 0 && FileSafe(lines) && |FileKeys(lines)| <= MAX_CLIENTS && KeysTellApart(lines)
    requires Reachable(lines, s)
    requires |answers| >= |lines| && forall a | a in answers :: AnswersFit(a) && AllSucceed(a)
    ensures Leads(lines, s, t) && t.opening.Reading? && FullMesh(t.pool, lines)
  {
    SafePool(lines, s);
    ReachesItself(Step(lines), s);
    var u := AttemptCanEnd(lines, s, s);
    ReachesOn(Step(lines), Init(), s, u);
    SafePool(lines, u);
    t := SeriesIsPath(lines, s, u, answers);
    MeshConverges(AsTask(u), lines, answers);
  }

  lemma SomeSucceed() returns (a: Answers)
    ensures AnswersFit(a) && AllSucceed(a)
  {
    a := Answers(true, true, Some(IdFrame(1) + seq(18, _ => 0)));
  }

  /** The connection task is at the top of its loop and has nothing open twice. */
  ghost predicate AtTop(lines: seq<Line>, s: State) {
    s.opening.Reading? && InOrder(AsTask(s), lines)
  }

  /** Whatever the file, r lines read with the right answers have slots of their own in the end. */
  lemma {:induction false} PassSettles(lines: seq<Line>, s0: State, s: State, ok: Answers, r: nat) returns (t: State)
    requires |lines| > 0 && LinesFit(lines) && |FileKeys(lines)| <= MAX_CLIENTS && KeysTellApart(lines)
    requires Leads(lines, s0, s) && AtTop(lines, s) && AnswersFit(ok) && AllSucceed(ok)
    ensures Leads(lines, s0, t) && AtTop(lines, t) && OpenAddresses(s.pool) <= OpenAddresses(t.pool)
    ensures forall i: nat | i < r && lines[ReadAt(|lines|, s.cursor, i)].Endpoint? ::
              Address(lines[ReadAt(|lines|, s.cursor, i)]) in OpenAddresses(t.pool)
    decreases r
  {
    t := s;
    if r > 0 {
      var a := IterationSettles(AsTask(s), lines, ok);
      var u := IterationIsPath(lines, s0, s, a);
      t := PassSettles(lines, s0, u, ok, r - 1);
      forall i: nat | i < r && lines[ReadAt(|lines|, s.cursor, i)].Endpoint?
        ensures Address(lines[ReadAt(|lines|, s.cursor, i)]) in OpenAddresses(t.pool)
      {
        if i > 0 {
          assert ReadAt(|lines|, s.cursor, i) == ReadAt(|lines|, u.cursor, i - 1);
        }
      }
    }
  }

  /** A whole pass reads every line. */
  lemma PassReadsAll(lines: seq<Line>, cursor: nat, p: Pool)
    requires |lines| > 0 && cursor <= |lines|
    requires forall i: nat | i < |lines| && lines[ReadAt(|lines|, cursor, i)].Endpoint? ::
               Address(lines[ReadAt(|lines|, cursor, i)]) in OpenAddresses(p)
    ensures FileAddresses(lines) <= OpenAddresses(p)
  {
    forall x | x in FileAddresses(lines)
      ensures x in OpenAddresses(p)
    {
      var i: nat :| i < |lines| && lines[i].Endpoint? && Address(lines[i]) == x;
      EveryLineOnce(|lines|, cursor, i);
      var k: nat :| k < |lines| && ReadAt(|lines|, cursor, k) == i;
      assert lines[ReadAt(|lines|, cursor, k)].Endpoint?;
    }
  }

  lemma MeshFromAnyFile(lines: seq<Line>, s: State) returns (t: State)
    requires |lines| > 0 && LinesFit(lines) && |FileKeys(lines)| <= MAX_CLIENTS && KeysTellApart(lines)
    requires Reachable(lines, s) && EndpointsUnique(s.pool)
    ensures Leads(lines, s, t) && FullMesh(t.pool, lines)
  {
    ReachableFile(lines, s);
    ReachesItself(Step(lines), s);
    var u := AttemptCanEnd(lines, s, s);
    ReachesOn(Step(lines), Init(), s, u);
    ReachableFile(lines, u);
    var ok := SomeSucceed();
    t := PassSettles(lines, s, u, ok, |lines|);
    PassReadsAll(lines, u.cursor, t.pool);
    AllOpenIsMesh(t.pool, lines);
  }

  /** A full mesh can be reached from here. */
  ghost predicate CanMesh(lines: seq<Line>, s: State) {
    exists t :: Leads(lines, s, t) && FullMesh(t.pool, lines)
  }

  lemma MeshIsApart(lines: seq<Line>, s: State)
    requires Reachable(lines, s) && CanMesh(lines, s)
    ensures |FileKeys(lines)| <= MAX_CLIENTS && KeysTellApart(lines)
  {
    var t :| Leads(lines, s, t) && FullMesh(t.pool, lines);
    ReachesOn(Step(lines), Init(), s, t);
    ReachableFile(lines, t);
    MeshTellsApart(t.pool, lines);
  }

  /** Whatever the file, the mesh can be reached from the start, and from every other reachable state with no key open
      twice, exactly if the file has no more than ten keys and these tell its endpoints apart. */
  lemma MeshReachableIff(lines: seq<Line>, s: State)
    requires LinesFit(lines) && Reachable(lines, s) && EndpointsUnique(s.pool)
    ensures CanMesh(lines, s) <==> |FileKeys(lines)| <= MAX_CLIENTS && KeysTellApart(lines)
  {
    if |FileKeys(lines)| <= MAX_CLIENTS && KeysTellApart(lines) {
      if |lines| == 0 {
        ReachesItself(Step(lines), s);
        assert Leads(lines, s, s) && FullMesh(s.pool, lines);
      } else {
        var t := MeshFromAnyFile(lines, s);
      }
    }
    if CanMesh(lines, s) {
      MeshIsApart(lines, s);
    }
  }

  // ---- when endpoints stay unique ----

  /** However connects fail and sends break connections, no two open sockets ever agree on the first eight characters
      of the host and on the port, let alone on the whole endpoint, if the file is safe. */
  lemma NeverTwiceOnOneEndpoint(lines: seq<Line>, s: State, j: nat, k: nat)
    requires FileSafe(lines) && Reachable(lines, s)
    requires j < k < MAX_CLIENTS && s.pool[j].open && s.pool[k].open
    ensures SlotKey(s.pool[j]) != SlotKey(s.pool[k])
    ensures !(s.pool[j].host == s.pool[k].host && s.pool[j].port == s.pool[k].port)
  {
    SafePool(lines, s);
  }

  /** Reads lines that do not connect. */
  lemma PassOver(lines: seq<Line>, s: State, k: nat, m: nat) returns (t: State)
    requires |lines| > 0 && LinesFit(lines) && Reachable(lines, s) && s.opening.Reading? && HasRead(AsTask(s), lines, k)
    ensures Reachable(lines, t) && t.opening.Reading? && HasRead(AsTask(t), lines, k + m) && SameOpen(s.pool, t.pool)
  {
    var answers := seq(m, _ => Answers(false, false, None));
    t := SeriesIsPath(lines, Init(), s, answers);
    FailuresOpenNothing(AsTask(s), lines, answers, k);
  }

  /** A first round in which only line i connects. */
  lemma OneConnects(lines: seq<Line>, i: nat, ok: Answers) returns (t: State)
    requires LinesFit(lines) && i < |lines| && lines[i].Endpoint? && AnswersFit(ok) && AllSucceed(ok)
    ensures Reachable(lines, t) && t.opening.Reading? && HasRead(AsTask(t), lines, i + 1)
    ensures t.pool[0] == Slot(true, ParseId(ok.reply.value).value, lines[i].host, ToU16(lines[i].port))
    ensures forall k | 0 < k < MAX_CLIENTS :: !t.pool[k].open
  {
    ReachesItself(Step(lines), Init());
    var s := PassOver(lines, Init(), 0, i);
    FirstReading(|lines|, i);
    t := IterationIsPath(lines, Init(), s, ok);
    FirstConnects(AsTask(s), lines, ok);
    IterationReads(AsTask(s), lines, ok, i);
  }

  /** Slots 0 and 1 are both open on the line's endpoint, with the same ID. */
  ghost predicate OnTwice(p: Pool, line: Line, id: U32) {
    line.Endpoint? && p[0] == p[1] == Slot(true, id, line.host, ToU16(line.port))
  }

  /** Two rounds over a file that is not safe, in which nothing connects but its dirty line, both times. */
  lemma DirtyLineConnectsTwice(lines: seq<Line>, i: nat, p: nat, ok: Answers) returns (s: State)
    requires LinesFit(lines) && i < |lines| && lines[i].Endpoint? && |lines[i].host| < p < COMPARED
    requires LastReaching(lines, i, p, 1) != 0 && LastReaching(lines, i, p, 1) != p
    requires AnswersFit(ok) && AllSucceed(ok)
    ensures Reachable(lines, s) && s.opening.Reading? && !EndpointsUnique(s.pool)
    ensures OnTwice(s.pool, lines[i], ParseId(ok.reply.value).value)
  {
    var t := OneConnects(lines, i, ok);
    var u := PassOver(lines, t, i + 1, |lines| - 1);
    SecondRoundDirty(lines, i, p);
    s := DirtyLineIsTried(lines, u, i, ok);
  }

  lemma DirtyLineIsTried(lines: seq<Line>, s: State, i: nat, ok: Answers) returns (t: State)
    requires LinesFit(lines) && i < |lines| && lines[i].Endpoint? && AnswersFit(ok) && AllSucceed(ok)
    requires Reachable(lines, s) && s.opening.Reading? && Fetched(|lines|, s.cursor) == i && !Clean(s.buf, lines[i])
    requires s.pool[0] == Slot(true, ParseId(ok.reply.value).value, lines[i].host, ToU16(lines[i].port))
    requires forall k | 0 < k < MAX_CLIENTS :: !s.pool[k].open
    ensures Reachable(lines, t) && t.opening.Reading? && !EndpointsUnique(t.pool)
    ensures OnTwice(t.pool, lines[i], ParseId(ok.reply.value).value)
  {
    t := IterationIsPath(lines, Init(), s, ok);
    DirtyLineConnectsAgain(AsTask(s), lines, ok, 0);
  }

  lemma FirstReading(n: nat, i: nat)
    requires i < n
    ensures ReadAt(n, 0, i) == i
  {
    RoundRobin(n, 0, i);
    DivModUnique(i, n, 0, i);
  }

  /** Endpoints stay unique in every run exactly if the file is safe: the parse buffer, which is never cleared, shows
      nothing of longer lines behind any of its short hosts. */
  lemma UniqueInAllRunsIff(lines: seq<Line>)
    requires LinesFit(lines)
    ensures (forall s :: Reachable(lines, s) ==> EndpointsUnique(s.pool)) <==> FileSafe(lines)
  {
    if FileSafe(lines) {
      forall s | Reachable(lines, s)
        ensures EndpointsUnique(s.pool)
      {
        SafePool(lines, s);
      }
    } else {
      var i, p :| 0 <= i < |lines| && lines[i].Endpoint? && |lines[i].host| < p < COMPARED
                  && LastReaching(lines, i, p, 1) != 0 && LastReaching(lines, i, p, 1) != p;
      var ok := SomeSucceed();
      var s := DirtyLineConnectsTwice(lines, i, p, ok);
    }
  }

  /** Two slots on one endpoint without an ID stay: the sender closes only what has one, and the connection task only
      what it opened itself. */
  ghost predicate Stuck(s: State, line: Line) {
    && Inv(s) && OnTwice(s.pool, line, 0)
    && match s.opening
       case Hosting(k, _) => k > 1
       case Connecting(k) => k > 1
       case SendingId(k) => k > 1
       case ReceivingId(k) => k > 1
       case Closing(k) => k > 1
       case _ => true
  }

  lemma StaysStuck(lines: seq<Line>, s: State, a: Action, line: Line)
    requires Stuck(s, line) && CanDo(lines, s, a)
    ensures Stuck(Do(lines, s, a), line)
  {
    StepKeepsInv(lines, s, a);
    if a.CloseBroken? {
      LookUpAgrees(s.pool, s.sending.receiver);
    }
  }

  lemma StuckForGood(lines: seq<Line>, s: State, i: nat)
    requires i < |lines| && Stuck(s, lines[i])
    ensures !CanMesh(lines, s)
  {
    forall t | Leads(lines, s, t)
      ensures !FullMesh(t.pool, lines)
    {
      var inv := (x: State) => Stuck(x, lines[i]);
      forall x: State, a | inv(x) && Step(lines)(x, a).Some?
        ensures inv(Step(lines)(x, a).value)
      {
        StaysStuck(lines, x, a, lines[i]);
      }
      InvariantHolds(Step(lines), inv, s, t);
      assert OnLine(t.pool[0], lines[i]) && OnLine(t.pool[1], lines[i]);
      assert forall k: nat :: !IsSlotFor(t.pool, lines[i], k);
    }
  }

  lemma UnsafeGetsStuck(lines: seq<Line>) returns (s: State)
    requires LinesFit(lines) && !FileSafe(lines)
    ensures Reachable(lines, s) && !CanMesh(lines, s)
  {
    var i, p :| 0 <= i < |lines| && lines[i].Endpoint? && |lines[i].host| < p < COMPARED
                && LastReaching(lines, i, p, 1) != 0 && LastReaching(lines, i, p, 1) != p;
    var ok := SomeNameless();
    s := DirtyLineConnectsTwice(lines, i, p, ok);
    ReachableInv(lines, s);
    StuckForGood(lines, s, i);
  }

  /** The server at the other end says that its ID is 0. */
  lemma SomeNameless() returns (a: Answers)
    ensures AnswersFit(a) && AllSucceed(a) && ParseId(a.reply.value).value == 0
  {
    a := Answers(true, true, Some(IdFrame(0) + seq(18, _ => 0)));
    assert a.reply.value[2..6] == Encode(0);
    DecodeEncode(0);
  }

  /** The mesh can be reached from every reachable state exactly if the file is safe, has no more than ten keys, and
      these tell its endpoints apart. */
  lemma AlwaysMeshIff(lines: seq<Line>)
    requires LinesFit(lines)
    ensures (forall s :: Reachable(lines, s) ==> CanMesh(lines, s))
            <==> FileSafe(lines) && |FileKeys(lines)| <= MAX_CLIENTS && KeysTellApart(lines)
  {
    if FileSafe(lines) && |FileKeys(lines)| <= MAX_CLIENTS && KeysTellApart(lines) {
      forall s | Reachable(lines, s)
        ensures CanMesh(lines, s)
      {
        SafePool(lines, s);
        MeshReachableIff(lines, s);
      }
    }
    if forall s :: Reachable(lines, s) ==> CanMesh(lines, s) {
      ReachesItself(Step(lines), Init());
      MeshIsApart(lines, Init());
      if !FileSafe(lines) {
        var s := UnsafeGetsStuck(lines);
      }
    }
  }

  /** A file on which the driver connects twice to one endpoint. */
  lemma AShortHostBehindALongOne() returns (lines: seq<Line>, s: State)
    ensures lines == [Endpoint("1.2.3", 1), Endpoint("192.168.100.200", 2)]
    ensures LinesFit(lines) && Reachable(lines, s) && !EndpointsUnique(s.pool)
  {
    lines := [Endpoint("1.2.3", 1), Endpoint("192.168.100.200", 2)];
    assert LastReaching(lines, 0, 6, 1) == 15;
    var ok := SomeSucceed();
    s := DirtyLineConnectsTwice(lines, 0, 6, ok);
  }

  /** A safe file of two lines that never get a socket each: the two hosts agree in their first eight characters, so
      once one of them is connected the other counts as connected. */
  lemma TwoHostsOneSocket() returns (lines: seq<Line>, s: State)
    ensures lines == [Endpoint("192.168.1.10", 80), Endpoint("192.168.1.11", 80)]
    ensures FileSafe(lines) && |FileKeys(lines)| == 1 && !KeysTellApart(lines)
    ensures Reachable(lines, s) && OneSlotFor(s.pool, lines[0])
    ensures forall t :: Reachable(lines, t) ==> !(OneSlotFor(t.pool, lines[0]) && OneSlotFor(t.pool, lines[1]))
  {
    lines := [Endpoint("192.168.1.10", 80), Endpoint("192.168.1.11", 80)];
    SameKey(lines);
    s := FirstOfTwoConnects(lines);
    forall t | Reachable(lines, t)
      ensures !(OneSlotFor(t.pool, lines[0]) && OneSlotFor(t.pool, lines[1]))
    {
      ReachableFile(lines, t);
      NotBoth(t.pool, lines);
    }
  }

  lemma FirstOfTwoConnects(lines: seq<Line>) returns (s: State)
    requires FileSafe(lines) && |lines| == 2 && lines[0].Endpoint?
    ensures Reachable(lines, s) && OneSlotFor(s.pool, lines[0])
  {
    var ok := SomeSucceed();
    s := OneConnects(lines, 0, ok);
    assert IsSlotFor(s.pool, lines[0], 0);
  }

  lemma NotBoth(p: Pool, lines: seq<Line>)
    requires KeysMeanAddresses(p) && |lines| == 2 && lines[0].Endpoint? && lines[1].Endpoint? && !KeysTellApart(lines)
    ensures !(OneSlotFor(p, lines[0]) && OneSlotFor(p, lines[1]))
  {
    if OneSlotFor(p, lines[0]) && OneSlotFor(p, lines[1]) {
      MeshTellsApart(p, lines);
    }
  }

  lemma SameKey(lines: seq<Line>)
    requires lines == [Endpoint("192.168.1.10", 80), Endpoint("192.168.1.11", 80)]
    ensures FileSafe(lines) && |FileKeys(lines)| == 1 && !KeysTellApart(lines)
  {
    assert LineKey(lines[0]).host == LineKey(lines[1]).host;
    assert FileKeys(lines) == {LineKey(lines[0])};
    assert "192.168.1.10"[11] != "192.168.1.11"[11];
    assert Address(lines[0]) != Address(lines[1]);
  }
}
