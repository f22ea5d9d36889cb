/** The accept task and its readers sharing the server slots, as interleaved atomic steps. */
module ServerRuns {
  import opened SwarmTypes
  import opened Collections
  import opened Codec
  import opened ServerPool
  import opened Transitions
  import Sockets = ServerSockets

  /** Where a reader stands: at the top of its loop, having seen its slot open, having a buffer to receive into, having
      failed to receive, having a buffer to hand up (`ok` goes up with it, `failed` says that the receive failed for
      good), or past its loop. */
  datatype ReaderPc = Looping | Looked | Receiving | Failing | HandingUp(ok: bool, failed: bool) | Leaving

  /** The thread of a pool entry; k is the slot it was started on and `ticket` the connection it was started for. */
  datatype Thread = NoThread | Running(k: nat, ticket: nat, pc: ReaderPc) | Finished

  /** Where the accept task stands; k is the slot it has opened and not handed over yet. */
  datatype AcceptPc =
    | Top
    | Guarded
    | Joined(k: nat)
    | Identified(k: nat)
    | Dropping(k: nat)
    | Ready(k: nat)
    | Reaping(i: nat)
    | ShuttingDown(i: nat)
    | Ended

  type Tickets = s: seq<nat> | |s| == MAX_CLIENTS witness seq(MAX_CLIENTS, _ => 0)

  /** Every connection accepted gets the next ticket; `tickets` are those of the connections last accepted on each slot.
      `severed` counts accepts whose server ID could not be sent; `strays` are slots that no pool entry was left for. */
  datatype State = State(
    protocol: bool, server: Server, tickets: Tickets, issued: nat, tasks: Tasks, threads: seq<Thread>,
    accept: AcceptPc, severed: nat, strays: seq<nat>, stopped: bool)

  /** Steps of the accept task, of the reader in entry j, and the stop. */
  datatype Action =
    | Guard
    | Accept(activity: bool, accepted: bool)
    | RecvClientId(received: Option<seq<byte>>)
    | Drop
    | SendServerId(sent: bool)
    | SkipHandshake
    | StartReader
    | Reap
    | Look(j: nat)
    | LookAgain(j: nat, buffer: bool)
    | Receive(j: nat, ok: bool)
    | FailReceive(j: nat, transportClosed: bool)
    | CloseSocket(j: nat)
    | HandUp(j: nat)
    | Leave(j: nat)
    | Stop

  ghost function Init(protocol: bool): State {
    State(protocol, AllClosed(), seq(MAX_CLIENTS, _ => 0), 0, Tasks(seq(MAX_TASKS, _ => false), 0, 0),
          seq(MAX_TASKS, _ => NoThread), Top, 0, [], false)
  }

  predicate ReaderAt(s: State, j: nat, pc: ReaderPc) {
    j < |s.threads| && s.threads[j].Running? && s.threads[j].pc == pc && s.threads[j].k < MAX_CLIENTS
  }

  /** Its receive failed for good, and it has the buffer to hand up before it leaves. */
  predicate GivesUp(pc: ReaderPc) {
    pc.HandingUp? && pc.failed
  }

  /** It has a buffer to hand up and goes on. */
  predicate HandsOn(pc: ReaderPc) {
    pc.HandingUp? && !pc.failed
  }

  predicate HasBuffer(t: Thread) {
    t.Running? && t.pc.HandingUp?
  }

  /** When a step can be taken. A closed socket neither receives nor sends. */
  predicate CanDo(s: State, a: Action) {
    && TasksFit(s.tasks) && |s.threads| == MAX_TASKS
    && match a
       case Guard => s.accept.Top?
       case Accept(_, _) => s.accept.Guarded?
       case RecvClientId(received) =>
         && s.accept.Joined? && s.protocol && s.accept.k < MAX_CLIENTS
         && (received.Some? ==> |received.value| == 6 && s.server.slots[s.accept.k].open)
       case Drop => s.accept.Dropping? && s.accept.k < MAX_CLIENTS
       case SendServerId(sent) =>
         s.accept.Identified? && s.accept.k < MAX_CLIENTS && (sent ==> s.server.slots[s.accept.k].open)
       case SkipHandshake => s.accept.Joined? && !s.protocol
       case StartReader => s.accept.Ready? && s.accept.k < MAX_CLIENTS
       case Reap => s.accept.Reaping? || s.accept.ShuttingDown?
       case Look(j) => ReaderAt(s, j, Looping)
       case LookAgain(j, _) => ReaderAt(s, j, Looked)
       case Receive(j, _) => ReaderAt(s, j, Receiving)
       case FailReceive(j, _) => ReaderAt(s, j, Receiving)
       case CloseSocket(j) => ReaderAt(s, j, Failing)
       case HandUp(j) => j < |s.threads| && HasBuffer(s.threads[j]) && s.threads[j].k < MAX_CLIENTS
       case Leave(j) => ReaderAt(s, j, Leaving)
       case Stop => !s.stopped
  }

  function Moved(s: State, j: nat, pc: ReaderPc): seq<Thread>
    requires j < |s.threads| && s.threads[j].Running?
  {
    s.threads[j := s.threads[j].(pc := pc)]
  }

  /** The end of an accept loop iteration: the loop goes on until the stop flag is seen. */
  function NextRound(s: State): AcceptPc {
    if s.stopped then ShuttingDown(0) else Top
  }

  /** The end of a round of a reader's loop. */
  function NextLook(s: State): ReaderPc {
    if s.stopped then Leaving else Looping
  }

  function Do(s: State, a: Action): State
    requires CanDo(s, a)
  {
    match a
    case Guard =>
      s.(accept := if Sockets.GuardPasses(s.server, s.tasks) then Guarded else Reaping(0))
    case Accept(activity, accepted) =>
      var k := FirstClosed(s.server.slots, 0);
      if activity && accepted && k < MAX_CLIENTS then
        s.(server := Opened(s.server), tickets := s.tickets[k := s.issued], issued := s.issued + 1, accept := Joined(k))
      else s.(accept := NextRound(s))
    case RecvClientId(received) =>
      var k := s.accept.k;
      if received.Some? && ParseId(received.value).Some? then
        var slot := s.server.slots[k].(id := ParseId(received.value).value);
        s.(server := s.server.(slots := s.server.slots[k := slot]), accept := Identified(k))
      else
        s.(server := Severed(s.server, k), accept := Dropping(k))
    case Drop => s.(server := ClosedAt(s.server, s.accept.k), accept := NextRound(s))
    case SendServerId(sent) =>
      if sent then s.(accept := Ready(s.accept.k))
      else s.(server := Severed(s.server, s.accept.k), accept := NextRound(s), severed := s.severed + 1)
    case SkipHandshake => s.(accept := Ready(s.accept.k))
    case StartReader =>
      var (j, k) := (FirstUnstarted(s.tasks.started, 0), s.accept.k);
      if j < MAX_TASKS then
        s.(tasks := Started(s.tasks), threads := s.threads[j := Running(k, s.tickets[k], Looping)],
           accept := NextRound(s))
      else
        s.(strays := s.strays + [k], accept := NextRound(s))
    case Reap =>
      var i := s.accept.i;
      if i < MAX_TASKS then
        s.(tasks := ReapedAt(s.tasks, i, s.threads[i].Finished?),
           threads := if s.threads[i].Finished? && s.tasks.started[i] then s.threads[i := NoThread] else s.threads,
           accept := if s.accept.Reaping? then Reaping(i + 1) else ShuttingDown(i + 1))
      else if s.accept.Reaping? then s.(accept := NextRound(s))
      else s.(server := AllClosed(), accept := Ended)
    case Look(j) =>
      s.(threads := Moved(s, j, if s.server.slots[s.threads[j].k].open then Looked else Leaving))
    case LookAgain(j, buffer) =>
      s.(threads := Moved(s, j, if !s.server.slots[s.threads[j].k].open || s.stopped then NextLook(s)
                                else if buffer then Receiving else HandingUp(false, false)))
    case Receive(j, ok) => s.(threads := Moved(s, j, HandingUp(ok, false)))
    case FailReceive(j, transportClosed) =>
      s.(server := if transportClosed then Severed(s.server, s.threads[j].k) else s.server,
         threads := Moved(s, j, Failing))
    case CloseSocket(j) =>
      s.(server := s.server.(slots := s.server.slots[s.threads[j].k := CLOSED]),
         threads := Moved(s, j, HandingUp(false, true)))
    case HandUp(j) =>
      s.(threads := Moved(s, j, if s.threads[j].pc.failed then Leaving else NextLook(s)))
    case Leave(j) =>
      s.(server := ClosedAt(s.server, s.threads[j].k), threads := s.threads[j := Finished])
    case Stop => s.(stopped := true, server := AllClosed())
  }

  ghost function Step(): (State, Action) -> Option<State> {
    (s: State, a: Action) => if CanDo(s, a) then Some(Do(s, a)) else None
  }

  ghost predicate Reachable(s: State) {
    exists protocol :: Reaches(Step(), Init(protocol), s)
  }

  // ---- the books ----

  /** The slot the accept task has opened and still has to hand over or drop. */
  function InHand(accept: AcceptPc): Option<nat> {
    match accept
    case Joined(k) => Some(k)
    case Identified(k) => Some(k)
    case Dropping(k) => Some(k)
    case Ready(k) => Some(k)
    case _ => None
  }

  /** The entries whose reader has not done its final close. */
  ghost function Live(threads: seq<Thread>): set<nat> {
    set j: nat | j < |threads| && threads[j].Running?
  }

  ghost function Leaked(s: State): nat {
    s.severed + |s.strays|
  }

  /** Who the counter counts: live readers, the accept in hand, and accepts that were lost. */
  ghost function Owed(s: State): nat {
    |Live(s.threads)| + (if InHand(s.accept).Some? then 1 else 0) + Leaked(s)
  }

  /** Somebody the counter counts is on slot k. */
  ghost predicate Owned(s: State, k: nat) {
    || InHand(s.accept) == Some(k)
    || (exists j: nat | j < |s.threads| :: s.threads[j].Running? && s.threads[j].k == k)
    || k in s.strays
  }

  /** The pool half of Shape: entries are started exactly while they have a thread. */
  ghost predicate PoolShape(tasks: Tasks, threads: seq<Thread>) {
    && TaskBound(tasks) && |threads| == MAX_TASKS
    && (forall j | 0 <= j < MAX_TASKS :: tasks.started[j] <==> !threads[j].NoThread?)
    && (forall j | 0 <= j < MAX_TASKS && threads[j].Running? :: threads[j].k < MAX_CLIENTS)
  }

  ghost predicate Shape(s: State) {
    && PoolShape(s.tasks, s.threads)
    && (InHand(s.accept).Some? ==> InHand(s.accept).value < MAX_CLIENTS)
  }

  /** Tickets are given out in order, one to a connection, and one reader at most is started for each. */
  ghost predicate Ticketed(s: State) {
    && (forall k | 0 <= k < MAX_CLIENTS && s.server.slots[k].open :: s.tickets[k] < s.issued)
    && (forall j | 0 <= j < |s.threads| && s.threads[j].Running? ::
          && s.threads[j].ticket < s.issued
          && (s.threads[j].k < MAX_CLIENTS ==> s.threads[j].ticket <= s.tickets[s.threads[j].k]))
    && (forall i, j | 0 <= i < j < |s.threads| && s.threads[i].Running? && s.threads[j].Running? ::
          s.threads[i].ticket != s.threads[j].ticket)
    && (InHand(s.accept).Some? ==>
          var k := InHand(s.accept).value;
          && k < MAX_CLIENTS && s.tickets[k] + 1 == s.issued
          && forall j | 0 <= j < |s.threads| && s.threads[j].Running? :: s.threads[j].ticket < s.tickets[k])
  }

  /** Reader j's slot is open on the connection the reader was started for. */
  predicate OnOwn(s: State, j: nat)
    requires j < |s.threads|
  {
    var t := s.threads[j];
    t.Running? && t.k < MAX_CLIENTS && s.server.slots[t.k].open && s.tickets[t.k] == t.ticket
  }

  /** A reader past its loop has nothing of its own left to close. */
  ghost predicate OwnClosed(s: State) {
    forall j | 0 <= j < |s.threads| && s.threads[j].Running?
               && (s.threads[j].pc.Leaving? || GivesUp(s.threads[j].pc)) ::
      !OnOwn(s, j)
  }

  ghost predicate Books(s: State) {
    && s.server.count == Owed(s)
    && s.server.count <= MAX_CLIENTS
    && (s.accept.Guarded? ==> s.server.count < MAX_CLIENTS)
    && (forall k | 0 <= k < MAX_CLIENTS && s.server.slots[k].open :: Owned(s, k))
  }

  ghost predicate Inv(s: State) {
    && Shape(s) && Ticketed(s)
    && (!s.stopped ==> Books(s) && OwnClosed(s) && !s.accept.ShuttingDown? && !s.accept.Ended?)
  }

  lemma LiveUpdate(threads: seq<Thread>, j: nat, t: Thread)
    requires j < |threads|
    ensures Live(threads[j := t]) == if t.Running? then Live(threads) + {j} else Live(threads) - {j}
  {
  }

  lemma ReapKeepsPool(tasks: Tasks, threads: seq<Thread>, i: nat)
    requires PoolShape(tasks, threads) && i < MAX_TASKS
    ensures PoolShape(ReapedAt(tasks, i, threads[i].Finished?),
                      if threads[i].Finished? && tasks.started[i] then threads[i := NoThread] else threads)
  {
    BoundKept(tasks, i, threads[i].Finished?);
    ReapedAtStarted(tasks, i, threads[i].Finished?);
  }

  lemma ReapKeepsShape(s: State)
    requires Shape(s) && CanDo(s, Reap)
    ensures Shape(Do(s, Reap))
  {
    if s.accept.i < MAX_TASKS {
      ReapKeepsPool(s.tasks, s.threads, s.accept.i);
    }
  }

  lemma StartKeepsShape(s: State)
    requires Shape(s) && CanDo(s, StartReader)
    ensures Shape(Do(s, StartReader))
  {
    BoundKept(s.tasks, 0, false);
  }

  predicate OfReader(a: Action) {
    a.Look? || a.LookAgain? || a.Receive? || a.FailReceive? || a.CloseSocket? || a.HandUp? || a.Leave?
  }

  lemma StepKeepsShape(s: State, a: Action)
    requires Shape(s) && CanDo(s, a)
    ensures Shape(Do(s, a))
  {
    if a.Reap? {
      ReapKeepsShape(s);
    } else if a.StartReader? {
      StartKeepsShape(s);
    } else {
      assert Do(s, a).tasks == s.tasks;
    }
  }

  /** What a reader's step changes of the readers: where this one stands. */
  lemma ReaderMoves(s: State, a: Action)
    requires CanDo(s, a) && OfReader(a)
    ensures var t := Do(s, a);
            && t == s.(server := t.server, threads := s.threads[a.j := t.threads[a.j]])
            && (t.threads[a.j].Running? ==>
                  t.threads[a.j].k == s.threads[a.j].k && t.threads[a.j].ticket == s.threads[a.j].ticket)
            && (forall k | 0 <= k < MAX_CLIENTS && t.server.slots[k].open :: s.server.slots[k].open)
  {
  }

  /** A step that opens no slot and starts no reader. */
  lemma TicketsStay(s: State, t: State)
    requires Ticketed(s) && t.issued == s.issued && t.tickets == s.tickets && |t.threads| == |s.threads|
    requires forall k | 0 <= k < MAX_CLIENTS && t.server.slots[k].open :: s.server.slots[k].open
    requires forall j | 0 <= j < |t.threads| && t.threads[j].Running? ::
               s.threads[j].Running? && t.threads[j].ticket == s.threads[j].ticket && t.threads[j].k == s.threads[j].k
    requires InHand(t.accept).Some? ==> InHand(t.accept) == InHand(s.accept)
    ensures Ticketed(t)
  {
  }

  lemma AcceptKeepsTickets(s: State, a: Action)
    requires Shape(s) && Ticketed(s) && CanDo(s, a) && a.Accept?
    ensures Ticketed(Do(s, a))
  {
  }

  lemma StartKeepsTickets(s: State)
    requires Shape(s) && Ticketed(s) && CanDo(s, StartReader)
    ensures Ticketed(Do(s, StartReader))
  {
    var t := Do(s, StartReader);
    var j := FirstUnstarted(s.tasks.started, 0);
    if j < MAX_TASKS {
      assert t.threads == s.threads[j := Running(s.accept.k, s.tickets[s.accept.k], Looping)];
      assert forall i | 0 <= i < |s.threads| && i != j && s.threads[i].Running? ::
          s.threads[i].ticket < t.threads[j].ticket;
    }
  }

  lemma ReaderKeepsTickets(s: State, a: Action)
    requires Shape(s) && Ticketed(s) && CanDo(s, a) && OfReader(a)
    ensures Ticketed(Do(s, a))
  {
    ReaderMoves(s, a);
    TicketsStay(s, Do(s, a));
  }

  lemma ReapKeepsTickets(s: State)
    requires Shape(s) && Ticketed(s) && CanDo(s, Reap)
    ensures Ticketed(Do(s, Reap))
  {
    TicketsStay(s, Do(s, Reap));
  }

  /** What the accept task's other steps change: where it stands, and what is still open. */
  lemma AcceptMoves(s: State, a: Action)
    requires CanDo(s, a) && !OfReader(a) && !a.Accept? && !a.StartReader? && !a.Reap?
    ensures var t := Do(s, a);
            && t == s.(server := t.server, accept := t.accept, severed := t.severed, stopped := t.stopped)
            && (InHand(t.accept).Some? ==> InHand(t.accept) == InHand(s.accept))
            && (forall k | 0 <= k < MAX_CLIENTS && t.server.slots[k].open :: s.server.slots[k].open)
  {
  }

  lemma OthersKeepTickets(s: State, a: Action)
    requires Shape(s) && Ticketed(s) && CanDo(s, a) && !OfReader(a) && !a.Accept? && !a.StartReader? && !a.Reap?
    ensures Ticketed(Do(s, a))
  {
    AcceptMoves(s, a);
    TicketsStay(s, Do(s, a));
  }

  lemma StepKeepsTickets(s: State, a: Action)
    requires Shape(s) && Ticketed(s) && CanDo(s, a)
    ensures Ticketed(Do(s, a))
  {
    if OfReader(a) {
      ReaderKeepsTickets(s, a);
    } else if a.Accept? {
      AcceptKeepsTickets(s, a);
    } else if a.StartReader? {
      StartKeepsTickets(s);
    } else if a.Reap? {
      ReapKeepsTickets(s);
    } else {
      OthersKeepTickets(s, a);
    }
  }

  /** Nobody else's step puts a reader past its loop, or its slot back on its own connection. */
  lemma OthersKeepOwnClosed(s: State, a: Action, j: nat)
    requires Shape(s) && Ticketed(s) && CanDo(s, a) && j < |s.threads| && !(OfReader(a) && a.j == j)
    requires Do(s, a).threads[j].Running? && OnOwn(Do(s, a), j)
    ensures Do(s, a).threads[j].pc.Looping? || (Do(s, a).threads[j] == s.threads[j] && OnOwn(s, j))
  {
    if OfReader(a) {
      OtherReaderKeepsOwn(s, a, j);
    } else if a.Accept? {
      AcceptKeepsOwn(s, a, j);
    }
  }

  lemma OtherReaderKeepsOwn(s: State, a: Action, j: nat)
    requires CanDo(s, a) && OfReader(a) && j < |s.threads| && a.j != j
    requires Do(s, a).threads[j].Running? && OnOwn(Do(s, a), j)
    ensures Do(s, a).threads[j] == s.threads[j] && OnOwn(s, j)
  {
    ReaderMoves(s, a);
  }

  lemma AcceptKeepsOwn(s: State, a: Action, j: nat)
    requires Ticketed(s) && CanDo(s, a) && a.Accept? && j < |s.threads|
    requires Do(s, a).threads[j].Running? && OnOwn(Do(s, a), j)
    ensures Do(s, a).threads[j] == s.threads[j] && OnOwn(s, j)
  {
  }

  lemma StepKeepsOwnClosed(s: State, a: Action)
    requires Shape(s) && Ticketed(s) && OwnClosed(s) && !s.stopped && CanDo(s, a) && !a.Stop?
    ensures OwnClosed(Do(s, a))
  {
    var t := Do(s, a);
    forall j: nat | j < |t.threads| && t.threads[j].Running?
                    && (t.threads[j].pc.Leaving? || GivesUp(t.threads[j].pc))
      ensures !OnOwn(t, j)
    {
      if OnOwn(t, j) && !(OfReader(a) && a.j == j) {
        OthersKeepOwnClosed(s, a, j);
      }
    }
  }

  /** A slot that nobody but reader j is on is closed when that reader leaves; the owners of others stay. */
  lemma OwnersStay(s: State, t: State, k: nat)
    requires Owned(s, k)
    requires InHand(s.accept) == Some(k) ==> Owned(t, k)
    requires |t.threads| == |s.threads|
    requires forall j: nat | j < |s.threads| && s.threads[j].Running? && s.threads[j].k == k ::
               t.threads[j].Running? && t.threads[j].k == k
    requires forall x | x in s.strays :: x in t.strays
    ensures Owned(t, k)
  {
    if j: nat :| j < |s.threads| && s.threads[j].Running? && s.threads[j].k == k {
      assert t.threads[j].Running? && t.threads[j].k == k;
    }
  }

  lemma StartKeepsBooks(s: State)
    requires Inv(s) && !s.stopped && CanDo(s, StartReader)
    ensures Books(Do(s, StartReader))
  {
    var t := Do(s, StartReader);
    var j := FirstUnstarted(s.tasks.started, 0);
    if j < MAX_TASKS {
      LiveUpdate(s.threads, j, t.threads[j]);
      assert j !in Live(s.threads);
      assert t.threads[j].Running? && t.threads[j].k == s.accept.k;
    } else {
      assert s.accept.k in t.strays;
    }
    forall k | 0 <= k < MAX_CLIENTS && t.server.slots[k].open
      ensures Owned(t, k)
    {
      OwnersStay(s, t, k);
    }
  }

  lemma ReapKeepsBooks(s: State)
    requires Inv(s) && !s.stopped && CanDo(s, Reap)
    ensures Books(Do(s, Reap))
  {
    var t := Do(s, Reap);
    assert Live(t.threads) == Live(s.threads);
    forall k | 0 <= k < MAX_CLIENTS && t.server.slots[k].open
      ensures Owned(t, k)
    {
      OwnersStay(s, t, k);
    }
  }

  lemma AcceptKeepsBooks(s: State, a: Action)
    requires Inv(s) && !s.stopped && CanDo(s, a)
    requires a.Guard? || a.Accept? || a.RecvClientId? || a.Drop? || a.SendServerId? || a.SkipHandshake?
    ensures Books(Do(s, a))
    ensures a.Drop? ==> s.server.count > 0
  {
    var t := Do(s, a);
    assert t.threads == s.threads && t.strays == s.strays;
    forall k | 0 <= k < MAX_CLIENTS && t.server.slots[k].open
      ensures Owned(t, k)
    {
      if s.server.slots[k].open {
        OwnersStay(s, t, k);
      }
    }
  }

  lemma ReaderKeepsBooks(s: State, a: Action)
    requires Inv(s) && !s.stopped && CanDo(s, a) && OfReader(a)
    ensures Books(Do(s, a))
    ensures a.Leave? ==> s.server.count > 0
  {
    var t := Do(s, a);
    ReaderMoves(s, a);
    LiveUpdate(s.threads, a.j, t.threads[a.j]);
    assert a.j in Live(s.threads);
    assert a.Leave? ==> |Live(t.threads)| == |Live(s.threads)| - 1;
    assert !a.Leave? ==> Live(t.threads) == Live(s.threads);
    forall k | 0 <= k < MAX_CLIENTS && t.server.slots[k].open
      ensures Owned(t, k)
    {
      OwnersStay(s, t, k);
    }
  }

  lemma StepKeepsBooks(s: State, a: Action)
    requires Inv(s) && !s.stopped && !a.Stop? && CanDo(s, a)
    ensures Books(Do(s, a))
  {
    if OfReader(a) {
      ReaderKeepsBooks(s, a);
    } else if a.StartReader? {
      StartKeepsBooks(s);
    } else if a.Reap? {
      ReapKeepsBooks(s);
    } else {
      AcceptKeepsBooks(s, a);
    }
  }

  lemma StepKeepsInv(s: State, a: Action)
    requires Inv(s) && CanDo(s, a)
    ensures Inv(Do(s, a))
  {
    StepKeepsShape(s, a);
    StepKeepsTickets(s, a);
    if !s.stopped && !a.Stop? {
      StepKeepsOwnClosed(s, a);
      StepKeepsBooks(s, a);
    }
  }

  lemma InitInv(protocol: bool)
    ensures Inv(Init(protocol))
  {
    assert Live(Init(protocol).threads) == {};
    assert StartedSet(Init(protocol).tasks.started) == {};
  }

  lemma ReachableInv(s: State)
    requires Reachable(s)
    ensures Inv(s)
  {
    var protocol :| Reaches(Step(), Init(protocol), s);
    InitInv(protocol);
    var inv := (x: State) => Inv(x);
    forall x: State, a | inv(x) && Step()(x, a).Some?
      ensures inv(Step()(x, a).value)
    {
      StepKeepsInv(x, a);
    }
    InvariantHolds(Step(), inv, Init(protocol), s);
  }

  // ---- what holds in every run ----

  /** Before the stop the counter is exactly the live readers, the accept in hand and the accepts lost, and no close
      finds it at zero: the guard against going below zero never decides anything. */
  lemma ExactAccounting(s: State, a: Action)
    requires Reachable(s) && !s.stopped
    ensures s.server.count == |Live(s.threads)| + (if InHand(s.accept).Some? then 1 else 0) + s.severed + |s.strays|
    ensures CanDo(s, a) && (a.Drop? || a.Leave?) ==> Do(s, a).server.count == s.server.count - 1
  {
    ReachableInv(s);
    if CanDo(s, a) && a.Leave? {
      ReaderKeepsBooks(s, a);
    }
  }

  ghost function OpenSlots(slots: seq<Slot>): set<nat> {
    set k: nat | k < |slots| && slots[k].open
  }

  ghost function ReaderSlots(threads: seq<Thread>): set<nat> {
    set j: nat | j < |threads| && threads[j].Running? :: threads[j].k
  }

  lemma {:induction false} ReaderSlotsCount(threads: seq<Thread>)
    ensures |ReaderSlots(threads)| <= |Live(threads)|
  {
    if threads == [] {
      assert Live(threads) == {} && ReaderSlots(threads) == {};
    } else {
      var (init, last) := (threads[..|threads| - 1], threads[|threads| - 1]);
      ReaderSlotsCount(init);
      assert Live(threads) == Live(init) + if last.Running? then {|init|} else {};
      var more := if last.Running? then {last.k} else {};
      assert ReaderSlots(threads) <= ReaderSlots(init) + more by {
        assert forall j | 0 <= j < |init| :: init[j] == threads[j];
      }
      SubsetSize(ReaderSlots(threads), ReaderSlots(init) + more);
    }
  }

  /** Before the stop no more slots are open than the counter says, and the counter stays within MAX_CLIENTS, even
      while a leaving reader closes a slot that has been opened anew under it. */
  lemma OpenWithinCount(s: State)
    requires Reachable(s) && !s.stopped
    ensures |OpenSlots(s.server.slots)| <= s.server.count <= MAX_CLIENTS
  {
    ReachableInv(s);
    OpenWithin(s);
  }

  lemma OpenWithin(s: State)
    requires Inv(s) && !s.stopped
    ensures |OpenSlots(s.server.slots)| <= s.server.count <= MAX_CLIENTS
  {
    var mine := if InHand(s.accept).Some? then {InHand(s.accept).value} else {};
    var lost := ElementsOf(s.strays);
    var owned := ReaderSlots(s.threads) + mine + lost;
    assert OpenSlots(s.server.slots) <= owned by {
      forall k | k in OpenSlots(s.server.slots)
        ensures k in owned
      {
        assert Owned(s, k);
      }
    }
    SubsetSize(OpenSlots(s.server.slots), owned);
    assert |owned| <= |ReaderSlots(s.threads)| + |mine| + |lost|;
    ReaderSlotsCount(s.threads);
    DistinctCount(s.strays);
  }

  lemma RoomMeansClosedSlot(s: State)
    requires Inv(s) && !s.stopped && s.server.count < MAX_CLIENTS
    ensures FirstClosed(s.server.slots, 0) < MAX_CLIENTS
  {
    OpenWithin(s);
    if FirstClosed(s.server.slots, 0) == MAX_CLIENTS {
      assert forall k: nat | k < MAX_CLIENTS :: k in OpenSlots(s.server.slots);
      AllBelow(MAX_CLIENTS, OpenSlots(s.server.slots));
    }
  }

  /** So an accept whose guard has passed always finds a closed slot: it can only fail in the network. */
  lemma AcceptFindsSlot(s: State, activity: bool)
    requires Reachable(s) && !s.stopped && CanDo(s, Accept(activity, true))
    ensures FirstClosed(s.server.slots, 0) < MAX_CLIENTS
    ensures Do(s, Accept(true, true)).accept.Joined?
  {
    ReachableInv(s);
    RoomMeansClosedSlot(s);
  }

  /** Through starts, reaps and the shutdown pass alike, the task counter never exceeds the started entries, so it
      holds accepts back only when all sixteen are started; and a live reader's entry is always started. */
  lemma TaskCountBounded(s: State)
    requires Reachable(s)
    ensures 0 <= s.tasks.taskCount <= |StartedSet(s.tasks.started)| <= MAX_TASKS
    ensures s.tasks.taskCount == MAX_TASKS ==> FirstUnstarted(s.tasks.started, 0) == MAX_TASKS
    ensures forall j | j in Live(s.threads) :: j in StartedSet(s.tasks.started)
  {
    ReachableInv(s);
    FullCountMeansAllStarted(s.tasks);
    BelowCount(MAX_TASKS, StartedSet(s.tasks.started));
  }

  /** Once the accept task has ended all sockets are closed for good, and the counter is zero. */
  ghost predicate ClosedAtEnd(s: State) {
    && (s.accept.ShuttingDown? || s.accept.Ended? ==> s.stopped)
    && (s.accept.Ended? ==> s.server.count == 0 && forall k | 0 <= k < MAX_CLIENTS :: !s.server.slots[k].open)
  }

  lemma StepKeepsClosedAtEnd(s: State, a: Action)
    requires ClosedAtEnd(s) && CanDo(s, a)
    ensures ClosedAtEnd(Do(s, a))
  {
  }

  lemma EndedIsClosed(s: State)
    requires Reachable(s)
    ensures s.accept.Ended? ==>
              s.stopped && s.server.count == 0 && forall k | 0 <= k < MAX_CLIENTS :: !s.server.slots[k].open
  {
    var protocol :| Reaches(Step(), Init(protocol), s);
    var inv := (x: State) => ClosedAtEnd(x);
    forall x: State, a | inv(x) && Step()(x, a).Some?
      ensures inv(Step()(x, a).value)
    {
      StepKeepsClosedAtEnd(x, a);
    }
    InvariantHolds(Step(), inv, Init(protocol), s);
  }

  /** The stop closes every socket; whoever is accepted after it is closed when the accept task ends. */
  lemma StopCloses(s: State)
    requires CanDo(s, Stop)
    ensures var t := Do(s, Stop);
            && t == s.(server := t.server, stopped := true) && t.server.count == 0
            && forall k | 0 <= k < MAX_CLIENTS :: !t.server.slots[k].open && t.server.slots[k].id == 0
  {
  }

  /** The close a reader ends with never closes the connection the reader was started for, which is closed by then. If
      its slot is open, it was opened anew in the meantime and the close hits that later connection. */
  lemma FinalCloseHitsOthers(s: State, j: nat)
    requires Reachable(s) && !s.stopped && CanDo(s, Leave(j))
    ensures var k := s.threads[j].k;
            && (s.server.slots[k].open ==> s.threads[j].ticket < s.tickets[k])
            && !Do(s, Leave(j)).server.slots[k].open
  {
    ReachableInv(s);
    assert !OnOwn(s, j);
  }

  /** The close of a reader that failed to receive closes whatever its slot is on by then, the reader's own connection
      or one accepted later, and counts nothing off. */
  lemma FailedCloseHits(s: State, j: nat)
    requires Reachable(s) && !s.stopped && CanDo(s, CloseSocket(j))
    ensures var k := s.threads[j].k;
            && (s.server.slots[k].open ==> OnOwn(s, j) || s.threads[j].ticket < s.tickets[k])
            && !Do(s, CloseSocket(j)).server.slots[k].open && Do(s, CloseSocket(j)).server.count == s.server.count
  {
    ReachableInv(s);
  }
}
