/** Runs of the server: the accept loop body as written, and runs that lose places or close the wrong connection. */
module ServerPaths {
  import opened SwarmTypes
  import opened Codec
  import opened ServerPool
  import opened ServerRuns
  import opened ServerRoom
  import opened Transitions
  import Sockets = ServerSockets

  lemma Extend(s: State, a: Action)
    requires Reachable(s) && CanDo(s, a)
    ensures Reachable(Do(s, a))
  {
    var protocol :| Reaches(Step(), Init(protocol), s);
    ReachesNext(Step(), Init(protocol), s, a, Do(s, a));
  }

  lemma ExtendQuietly(s: State, t: State)
    requires Reachable(s) && Reaches(QuietStep(), s, t)
    ensures Reachable(t)
  {
    var protocol :| Reaches(Step(), Init(protocol), s);
    QuietRuns(s, t);
    ReachesOn(Step(), Init(protocol), s, t);
  }

  // ---- the loop body is a path through the steps ----

  ghost function FinishedIn(threads: seq<Thread>): seq<bool>
    requires |threads| == MAX_TASKS
  {
    seq(MAX_TASKS, j requires 0 <= j < MAX_TASKS => threads[j].Finished?)
  }

  /** What a reap pass does to the threads: those that had finished are joined. */
  ghost predicate JoinedBefore(threads: seq<Thread>, threads': seq<Thread>, end: nat) {
    && |threads| == |threads'|
    && forall j | 0 <= j < |threads| :: threads'[j] == if j < end && threads[j].Finished? then NoThread else threads[j]
  }

  /** The accept task at entry i of a pass, in its loop or shutting down. */
  predicate AtEntry(s: State, i: nat) {
    s.accept == Reaping(i) || s.accept == ShuttingDown(i)
  }

  /** What a reap pass before entry i leaves. */
  ghost predicate ReapedBefore(s: State, t: State, i: nat)
    requires TasksFit(s.tasks) && |s.threads| == MAX_TASKS && i <= MAX_TASKS
  {
    && JoinedBefore(s.threads, t.threads, i)
    && t == s.(tasks := Reaped(s.tasks, FinishedIn(s.threads), i), threads := t.threads, accept := t.accept)
    && AtEntry(t, i) && t.accept.Reaping? == s.accept.Reaping?
  }

  lemma ReapsNext(s: State, u: State, i: nat)
    requires TasksFit(s.tasks) && |s.threads| == MAX_TASKS && i < MAX_TASKS && ReapedBefore(s, u, i)
    requires s.threads[i].Finished? ==> s.tasks.started[i]
    ensures CanDo(u, Reap) && ReapedBefore(s, Do(u, Reap), i + 1)
  {
    ReapExact(s.tasks, FinishedIn(s.threads), i);
    assert u.threads[i] == s.threads[i];
  }

  /** A reap pass with nobody in between. */
  lemma {:induction false} ReapIsPath(s: State, i: nat) returns (t: State)
    requires AtEntry(s, 0) && TasksFit(s.tasks) && |s.threads| == MAX_TASKS && i <= MAX_TASKS
    requires forall j | 0 <= j < MAX_TASKS :: s.threads[j].Finished? ==> s.tasks.started[j]
    ensures Reaches(ReapStep(), s, t) && ReapedBefore(s, t, i)
  {
    if i == 0 {
      t := s;
      ReachesItself(ReapStep(), s);
    } else {
      var u := ReapIsPath(s, i - 1);
      ReapsNext(s, u, i - 1);
      t := Do(u, Reap);
      ReachesNext(ReapStep(), s, u, Reap, t);
    }
  }

  ghost function ReapStep(): (State, Action) -> Option<State> {
    (s: State, a: Action) => if CanDo(s, a) && a.Reap? then Some(Do(s, a)) else None
  }

  lemma ReapRuns(s: State, t: State)
    requires Reachable(s) && Reaches(ReapStep(), s, t)
    ensures Reachable(t)
  {
    var protocol :| Reaches(Step(), Init(protocol), s);
    ReachesAlso(ReapStep(), Step(), s, t);
    ReachesOn(Step(), Init(protocol), s, t);
  }

  /** With nobody in between, the shutdown sequence joins what has finished and closes all sockets. */
  lemma ShutDownIsPath(s: State) returns (t: State)
    requires Reachable(s) && s.accept == ShuttingDown(0) && |s.threads| == MAX_TASKS
    ensures Reaches(ReapStep(), s, t) && TasksFit(s.tasks) && JoinedBefore(s.threads, t.threads, MAX_TASKS)
    ensures t == s.(tasks := Reaped(s.tasks, FinishedIn(s.threads), MAX_TASKS), threads := t.threads,
                    server := AllClosed(), accept := Ended)
  {
    ReachableInv(s);
    var u := ReapIsPath(s, MAX_TASKS);
    t := Do(u, Reap);
    ReachesNext(ReapStep(), s, u, Reap, t);
  }

  /** The readers after an accept loop iteration: with the one it started, or those that a reap pass left. */
  ghost predicate ReadersAfter(s: State, t: State, reader: Option<nat>)
    requires TasksFit(s.tasks) && |s.threads| == MAX_TASKS
  {
    match reader
    case Some(k) =>
      var j := FirstUnstarted(s.tasks.started, 0);
      j < MAX_TASKS && t.threads == s.threads[j := Running(k, s.issued, Looping)]
    case None =>
      if Sockets.GuardPasses(s.server, s.tasks) then t.threads == s.threads
      else JoinedBefore(s.threads, t.threads, MAX_TASKS)
  }

  /** The accept task gets the answers of this iteration. */
  predicate Told(m: Sockets.Meets, a: Action) {
    match a
    case Accept(activity, accepted) => activity == m.activity && accepted == m.accepted
    case RecvClientId(received) => received == m.received
    case SendServerId(sent) => sent == m.sent
    case Drop => true
    case SkipHandshake => true
    case StartReader => true
    case Reap => true
    case _ => false
  }

  /** The accept task's steps behind its guard, with these answers. It has one choice at most in every state, and none
      at the top of its loop. */
  ghost function TurnStep(m: Sockets.Meets): (State, Action) -> Option<State> {
    (s: State, a: Action) => if CanDo(s, a) && Told(m, a) then Some(Do(s, a)) else None
  }

  lemma TurnGoes(m: Sockets.Meets, s0: State, s: State, a: Action)
    requires Reaches(TurnStep(m), s0, s) && CanDo(s, a) && Told(m, a)
    ensures Reaches(TurnStep(m), s0, Do(s, a))
  {
    ReachesNext(TurnStep(m), s0, s, a, Do(s, a));
  }

  lemma TurnIsOneWay(m: Sockets.Meets, s: State, a: Action, b: Action)
    requires TurnStep(m)(s, a).Some? && TurnStep(m)(s, b).Some?
    ensures a == b && !s.accept.Top?
  {
  }

  /** The iteration accepts a client. */
  predicate Accepts(s: State, m: Sockets.Meets) {
    && Sockets.Takes(s.server, s.tasks, m)
    && exists k :: 0 <= k < MAX_CLIENTS && !s.server.slots[k].open
  }

  /** From behind its guard the accept task, on the answers of the iteration and no others, comes to the top of its loop
      with what the loop body leaves. It has lost the accept exactly if the ID came in and could not be answered, and
      the slot is left without a reader exactly if the accept went through and no pool entry was left. */
  lemma IterationIsPath(s: State, m: Sockets.Meets) returns (t: State)
    requires Reachable(s) && !s.stopped && s.accept.Top? && Sockets.MeetsFit(m)
    requires |s.threads| == MAX_TASKS && m.finished == FinishedIn(s.threads)
    ensures Reachable(t) && TasksFit(s.tasks) && IterationEnds(s, m, t)
  {
    ReachableInv(s);
    Extend(s, Guard);
    if Sockets.GuardPasses(s.server, s.tasks) {
      t := AcceptIsPath(s, m);
    } else {
      t := PassIsPath(Do(s, Guard), m);
    }
  }

  /** What the iteration comes to. */
  ghost predicate IterationEnds(s: State, m: Sockets.Meets, t: State)
    requires TasksFit(s.tasks) && |s.threads| == MAX_TASKS && s.accept.Top? && Sockets.MeetsFit(m)
  {
    var iteration := Sockets.Accepted(s.server, s.tasks, s.protocol, m);
    && Reaches(TurnStep(m), Do(s, Guard), t) && t.accept.Top?
    && t.server == iteration.server && t.tasks == iteration.tasks && ReadersAfter(s, t, iteration.reader)
    && t.issued == s.issued + (if Accepts(s, m) then 1 else 0)
    && t.severed == s.severed + (if Accepts(s, m) && s.protocol && Sockets.Identifies(m) && !m.sent then 1 else 0)
    && |t.strays| == |s.strays| + (if Accepts(s, m) && Unread(s, m) then 1 else 0)
  }

  /** The client is answered, if need be, and no pool entry is left for it. */
  predicate Unread(s: State, m: Sockets.Meets)
    requires TasksFit(s.tasks) && Sockets.MeetsFit(m)
  {
    (s.protocol ==> Sockets.Identifies(m) && m.sent) && forall j | 0 <= j < MAX_TASKS :: s.tasks.started[j]
  }

  lemma AcceptIsPath(s: State, m: Sockets.Meets) returns (t: State)
    requires TasksFit(s.tasks) && |s.threads| == MAX_TASKS && Sockets.GuardPasses(s.server, s.tasks)
    requires !s.stopped && s.accept.Top? && Sockets.MeetsFit(m) && Reachable(Do(s, Guard))
    ensures Reachable(t) && IterationEnds(s, m, t)
  {
    var u := Do(s, Guard);
    ReachesItself(TurnStep(m), u);
    Extend(u, Accept(m.activity, m.accepted));
    TurnGoes(m, u, u, Accept(m.activity, m.accepted));
    t := Do(u, Accept(m.activity, m.accepted));
    if t.accept.Joined? {
      assert Accepts(s, m);
      t := HandshakeIsPath(u, t, m);
    }
  }

  lemma PassIsPath(s: State, m: Sockets.Meets) returns (t: State)
    requires Reachable(s) && !s.stopped && s.accept == Reaping(0) && TasksFit(s.tasks) && |s.threads| == MAX_TASKS
    requires forall j | 0 <= j < MAX_TASKS :: s.threads[j].Finished? ==> s.tasks.started[j]
    ensures Reachable(t) && Reaches(TurnStep(m), s, t) && JoinedBefore(s.threads, t.threads, MAX_TASKS)
    ensures t == s.(tasks := Reaped(s.tasks, FinishedIn(s.threads), MAX_TASKS), threads := t.threads, accept := Top)
  {
    t := ReapIsPath(s, MAX_TASKS);
    ReapRuns(s, t);
    Extend(t, Reap);
    ReachesAlso(ReapStep(), TurnStep(m), s, t);
    TurnGoes(m, s, t, Reap);
    t := Do(t, Reap);
  }

  /** The hand-over of slot k. */
  ghost function HandedOver(s: State, k: nat): State
    requires TasksFit(s.tasks) && |s.threads| == MAX_TASKS && k < MAX_CLIENTS
  {
    var (handed, j) := (Sockets.Handed(s.server, s.tasks, k), FirstUnstarted(s.tasks.started, 0));
    s.(server := handed.server, tasks := handed.tasks, accept := Top,
       threads := if j < MAX_TASKS then s.threads[j := Running(k, s.tickets[k], Looping)] else s.threads,
       strays := if j < MAX_TASKS then s.strays else s.strays + [k])
  }

  lemma HandOverIsPath(s0: State, s: State, m: Sockets.Meets) returns (t: State)
    requires Reachable(s) && !s.stopped && s.accept.Ready? && s.accept.k < MAX_CLIENTS
    requires TasksFit(s.tasks) && |s.threads| == MAX_TASKS && Reaches(TurnStep(m), s0, s)
    ensures Reachable(t) && Reaches(TurnStep(m), s0, t) && t == HandedOver(s, s.accept.k)
  {
    Extend(s, StartReader);
    TurnGoes(m, s0, s, StartReader);
    t := Do(s, StartReader);
  }

  /** The answer to a client that identified itself. */
  lemma AnswerIsPath(s0: State, s: State, m: Sockets.Meets) returns (t: State)
    requires Reachable(s) && !s.stopped && s.accept.Identified? && s.accept.k < MAX_CLIENTS
    requires TasksFit(s.tasks) && |s.threads| == MAX_TASKS && s.server.slots[s.accept.k].open
    requires Reaches(TurnStep(m), s0, s)
    ensures Reachable(t) && Reaches(TurnStep(m), s0, t)
    ensures t == if m.sent then HandedOver(s, s.accept.k)
                 else s.(server := Severed(s.server, s.accept.k), severed := s.severed + 1, accept := Top)
  {
    Extend(s, SendServerId(m.sent));
    TurnGoes(m, s0, s, SendServerId(m.sent));
    t := Do(s, SendServerId(m.sent));
    if m.sent {
      t := HandOverIsPath(s0, t, m);
    }
  }

  lemma HandshakeIsPath(s0: State, s: State, m: Sockets.Meets) returns (t: State)
    requires Reachable(s) && !s.stopped && s.accept.Joined? && s.accept.k < MAX_CLIENTS && Sockets.MeetsFit(m)
    requires TasksFit(s.tasks) && |s.threads| == MAX_TASKS && s.server.slots[s.accept.k].open
    requires Reaches(TurnStep(m), s0, s)
    ensures Reachable(t) && t.accept.Top? && Reaches(TurnStep(m), s0, t) && t.issued == s.issued
    ensures var k := s.accept.k;
            var parsed := if m.received == None then None else ParseId(m.received.value);
            var known := if parsed == None then s.server
                         else s.server.(slots := s.server.slots[k := ServerPool.Slot(true, parsed.value)]);
            if s.protocol && parsed == None then
              t == s.(server := ClosedAt(s.server, k), accept := Top)
            else if s.protocol && !m.sent then
              t == s.(server := Severed(known, k), severed := s.severed + 1, accept := Top)
            else
              t == HandedOver(if s.protocol then s.(server := known) else s, k)
  {
    if !s.protocol {
      Extend(s, SkipHandshake);
      TurnGoes(m, s0, s, SkipHandshake);
      t := HandOverIsPath(s0, Do(s, SkipHandshake), m);
    } else {
      Extend(s, RecvClientId(m.received));
      TurnGoes(m, s0, s, RecvClientId(m.received));
      t := Do(s, RecvClientId(m.received));
      if t.accept.Dropping? {
        Extend(t, Drop);
        TurnGoes(m, s0, t, Drop);
        t := Do(t, Drop);
      } else {
        t := AnswerIsPath(s0, t, m);
      }
    }
  }

  // ---- runs that lose places ----

  /** Each round with a server ID that cannot be sent costs the server one of its MAX_CLIENTS places for good. */
  lemma {:induction false} AcceptsCanBeLost(protocol: bool, n: nat) returns (s: State)
    requires protocol && n <= MAX_CLIENTS
    ensures Reachable(s)
    ensures s == Init(protocol).(server := s.server, tickets := s.tickets, issued := n, severed := n)
    ensures s.server.count == n && forall k | 0 <= k < MAX_CLIENTS :: !s.server.slots[k].open
  {
    if n == 0 {
      s := Init(protocol);
      ReachesItself(Step(), s);
    } else {
      s := AcceptsCanBeLost(protocol, n - 1);
      s := AcceptLost(s);
    }
  }

  /** Up to where the accept task has to answer a client. */
  lemma ClientJoins(s: State) returns (t: State)
    requires Reachable(s) && s.protocol && !s.stopped && s.accept.Top? && TasksFit(s.tasks) && |s.threads| == MAX_TASKS
    requires Sockets.GuardPasses(s.server, s.tasks) && FirstClosed(s.server.slots, 0) < MAX_CLIENTS
    ensures Reachable(t)
    ensures var k := FirstClosed(s.server.slots, 0);
            t == s.(server := Server(s.server.slots[k := ServerPool.Slot(true, 1)], s.server.count + 1),
                    tickets := s.tickets[k := s.issued], issued := s.issued + 1, accept := Identified(k))
  {
    Extend(s, Guard);
    t := Do(s, Guard);
    Extend(t, Accept(true, true));
    t := Do(t, Accept(true, true));
    var frame := Some(IdFrame(1));
    HandshakeRoundTrip(1, IdFrame(1));
    assert ReceivedInto(IdFrame(1), IdFrame(1)) == IdFrame(1);
    Extend(t, RecvClientId(frame));
    t := Do(t, RecvClientId(frame));
  }

  lemma AcceptLost(s: State) returns (t: State)
    requires Reachable(s) && s.protocol && !s.stopped && s.accept.Top? && TasksFit(s.tasks) && |s.threads| == MAX_TASKS
    requires s.tasks.taskCount == 0 && s.server.count < MAX_CLIENTS
    requires forall k | 0 <= k < MAX_CLIENTS :: !s.server.slots[k].open
    ensures Reachable(t)
    ensures t == s.(server := t.server, tickets := t.tickets, issued := s.issued + 1, severed := s.severed + 1)
    ensures t.server.count == s.server.count + 1
    ensures forall k | 0 <= k < MAX_CLIENTS :: !t.server.slots[k].open
  {
    t := ClientJoins(s);
    Extend(t, SendServerId(false));
    t := Do(t, SendServerId(false));
  }

  /** So there is a run, with every socket closed and no reader alive, after which nobody is accepted any more. */
  lemma ServerCanStarve() returns (s: State)
    ensures Reachable(s) && !s.stopped && Live(s.threads) == {} && OpenSlots(s.server.slots) == {}
    ensures forall t :: Reaches(Step(), s, t) && !t.stopped ==> !t.accept.Guarded?
  {
    s := AcceptsCanBeLost(true, MAX_CLIENTS);
    ReachableInv(s);
    forall t | Reaches(Step(), s, t) && !t.stopped
      ensures !t.accept.Guarded?
    {
      LostPlacesStarve(s, t);
    }
  }

  // ---- a connection that nobody reads ----

  /** The server after it accepted a client with the given ID, answered it and started its reader. */
  ghost function Welcomed(s: State, id: U32): State
    requires FirstClosed(s.server.slots, 0) < MAX_CLIENTS && TasksFit(s.tasks) && |s.threads| == MAX_TASKS
    requires FirstUnstarted(s.tasks.started, 0) < MAX_TASKS
  {
    var (k, j) := (FirstClosed(s.server.slots, 0), FirstUnstarted(s.tasks.started, 0));
    s.(server := Server(s.server.slots[k := ServerPool.Slot(true, id)], s.server.count + 1),
       tickets := s.tickets[k := s.issued], issued := s.issued + 1,
       tasks := Started(s.tasks), threads := s.threads[j := Running(k, s.issued, Looping)])
  }

  /** A closed slot and an unstarted entry within the first ones. */
  ghost predicate HasPlace(s: State, k: nat, j: nat) {
    && TasksFit(s.tasks) && |s.threads| == MAX_TASKS
    && k < MAX_CLIENTS && !s.server.slots[k].open && j < MAX_TASKS && !s.tasks.started[j]
  }

  lemma PlaceFound(s: State, k: nat, j: nat)
    requires HasPlace(s, k, j)
    requires forall i | 0 <= i < k :: s.server.slots[i].open
    requires forall i | 0 <= i < j :: s.tasks.started[i]
    ensures FirstClosed(s.server.slots, 0) == k && FirstUnstarted(s.tasks.started, 0) == j
  {
  }

  lemma ClientWelcomed(s: State)
    requires Reachable(s) && s.protocol && !s.stopped && s.accept.Top? && TasksFit(s.tasks) && |s.threads| == MAX_TASKS
    requires Sockets.GuardPasses(s.server, s.tasks) && FirstClosed(s.server.slots, 0) < MAX_CLIENTS
    requires FirstUnstarted(s.tasks.started, 0) < MAX_TASKS
    ensures Reachable(Welcomed(s, 1))
  {
    var t := ClientJoins(s);
    Extend(t, SendServerId(true));
    t := Do(t, SendServerId(true));
    Extend(t, StartReader);
    assert Do(t, StartReader) == Welcomed(s, 1);
  }

  /** Eight places lost, a reader alive on slot 0, slot 1 closed; entries 0 to c are started and the counter says c. */
  ghost predicate Filling(s: State, c: nat) {
    && s.protocol && !s.stopped && s.accept.Top? && TasksFit(s.tasks) && |s.threads| == MAX_TASKS
    && s.server.count == MAX_CLIENTS - 1 && s.server.slots[0].open && !s.server.slots[1].open
    && s.tasks.taskCount == c && s.strays == []
    && (forall j | 0 <= j < MAX_TASKS :: s.tasks.started[j] <==> j <= c)
    && (forall j | 0 <= j < MAX_TASKS :: s.threads[j].Running? <==> j == 0)
    && s.threads[0].k == 0
  }

  /** Two readers with all other places lost, the second ends during a pass over the pool: the pass joins it and, with
      its join status carried over, counts the unstarted entries behind it off as well. */
  lemma UndercountReached() returns (s: State)
    ensures Reachable(s) && Filling(s, 0)
  {
    var a := AcceptsCanBeLost(true, MAX_CLIENTS - 2);
    var c := TwoWelcomed(a);
    Extend(c, Guard);
    var d := Do(c, Guard);
    ReachesItself(QuietStep(), d);
    ReachableInv(d);
    var e := ReaderEnds(d, d, 1);
    ExtendQuietly(d, e);
    s := UndercountingPass(e);
  }

  lemma TwoWelcomed(a: State) returns (c: State)
    requires Reachable(a) && a == Init(true).(server := a.server, tickets := a.tickets, issued := 8, severed := 8)
    requires a.server.count == 8 && forall k | 0 <= k < MAX_CLIENTS :: !a.server.slots[k].open
    ensures Reachable(c) && c.protocol && !c.stopped && c.accept.Top? && c.strays == []
    ensures TasksFit(c.tasks) && |c.threads| == MAX_TASKS && c.tasks.taskCount == 2
    ensures forall j | 0 <= j < MAX_TASKS :: c.tasks.started[j] <==> j < 2
    ensures c.threads[0] == Running(0, 8, Looping) && c.threads[1] == Running(1, 9, Looping)
    ensures c.server.count == MAX_CLIENTS && c.server.slots[0].open && c.server.slots[1].open
  {
    PlaceFound(a, 0, 0);
    ClientWelcomed(a);
    var b := Welcomed(a, 1);
    PlaceFound(b, 1, 1);
    ClientWelcomed(b);
    c := Welcomed(b, 1);
  }

  lemma UndercountingPass(s: State) returns (t: State)
    requires Reachable(s) && s.accept == Reaping(0) && s.protocol && !s.stopped && s.strays == []
    requires TasksFit(s.tasks) && |s.threads| == MAX_TASKS && s.tasks.taskCount == 2
    requires forall j | 0 <= j < MAX_TASKS :: s.tasks.started[j] <==> j < 2
    requires s.threads[0].Running? && s.threads[0].k == 0 && s.threads[1].Finished?
    requires s.server.count == MAX_CLIENTS - 1 && s.server.slots[0].open && !s.server.slots[1].open
    ensures Reachable(t) && Filling(t, 0)
  {
    ReachableInv(s);
    t := ReapIsPath(s, MAX_TASKS);
    ReapRuns(s, t);
    ReapTail(s.tasks, FinishedIn(s.threads), 1, MAX_TASKS);
    ReapExact(s.tasks, FinishedIn(s.threads), MAX_TASKS);
    Extend(t, Reap);
    t := Do(t, Reap);
  }

  /** A reader comes and goes, and leaves one more entry started. */
  lemma {:induction false} EntriesFill(s: State, c: nat) returns (t: State)
    requires Reachable(s) && Filling(s, c) && c < MAX_TASKS
    ensures Reachable(t) && Filling(t, MAX_TASKS - 1)
    decreases MAX_TASKS - c
  {
    t := s;
    if c < MAX_TASKS - 1 {
      PlaceFound(s, 1, c + 1);
      ClientWelcomed(s);
      var u := Welcomed(s, 1);
      ReachableInv(u);
      ReachesItself(QuietStep(), u);
      var v := ReaderEnds(u, u, c + 1);
      ExtendQuietly(u, v);
      t := EntriesFill(v, c + 1);
    }
  }

  /** A client can be accepted, identified and answered without anyone ever reading what it sends: every pool entry is
      started although the task counter says otherwise. */
  lemma StrayReached() returns (s: State)
    ensures Reachable(s) && !s.stopped && s.accept.Top? && s.strays == [1]
    ensures s.server.slots[1] == ServerPool.Slot(true, 1) && s.tasks.taskCount == MAX_TASKS - 1
    ensures forall j | 0 <= j < |s.threads| && s.threads[j].Running? :: s.threads[j].k != 1
  {
    var a := UndercountReached();
    var b := EntriesFill(a, 0);
    assert FirstClosed(b.server.slots, 0) == 1;
    var c := ClientJoins(b);
    Extend(c, SendServerId(true));
    var d := Do(c, SendServerId(true));
    Extend(d, StartReader);
    s := Do(d, StartReader);
  }

  /** A server can be exhausted with places left: nobody it accepts from then on gets a reader. */
  lemma ExhaustionReached() returns (s: State)
    ensures Reachable(s) && !s.stopped && s.accept.Top? && Exhausted(s) && Lost(s) == MAX_CLIENTS - 2
  {
    var a := UndercountReached();
    var b := EntriesFill(a, 0);
    ReachableInv(b);
    ReachesItself(QuietStep(), b);
    s := ReaderEnds(b, b, 0);
    ExtendQuietly(b, s);
    assert Live(b.threads) == {0};
  }

  // ---- a reader that closes a later connection ----

  /** The first reader failed and closed its socket, the slot was opened anew for a second client with a reader of its
      own, and now the first reader's final close is due: it closes the second client's connection. */
  lemma FinalCloseCanHit() returns (s: State)
    ensures Reachable(s) && !s.stopped && CanDo(s, Leave(0))
    ensures |s.threads| > 1 && s.threads[0] == Running(0, 0, Leaving) && s.threads[1] == Running(0, 1, Looping)
    ensures OnOwn(s, 1) && !OnOwn(Do(s, Leave(0)), 1)
  {
    var a := FirstReaderFails();
    PlaceFound(a, 0, 1);
    ClientWelcomed(a);
    var b := Welcomed(a, 1);
    assert b.threads[0] == a.threads[0];
    Extend(b, HandUp(0));
    s := Do(b, HandUp(0));
    assert s.threads[1] == b.threads[1];
  }

  /** A first client is welcomed and its reader fails to receive. */
  lemma FirstReaderBreaks() returns (t: State)
    ensures Reachable(t) && t.protocol && !t.stopped && t.accept.Top? && t.issued == 1
    ensures TasksFit(t.tasks) && |t.threads| == MAX_TASKS && t.tasks.taskCount == 1
    ensures forall j | 0 <= j < MAX_TASKS :: t.tasks.started[j] <==> j == 0
    ensures t.threads[0] == Running(0, 0, Failing) && t.server.count == 1 && !t.server.slots[0].open
  {
    ReachesItself(Step(), Init(true));
    PlaceFound(Init(true), 0, 0);
    ClientWelcomed(Init(true));
    var s := Welcomed(Init(true), 1);
    assert s.threads[0] == Running(0, 0, Looping);
    t := ReaderBreaks(s);
  }

  /** Reader 0 looks at its slot twice and fails to receive, which closes its transport. */
  lemma ReaderBreaks(s: State) returns (t: State)
    requires Reachable(s) && TasksFit(s.tasks) && |s.threads| == MAX_TASKS && !s.stopped
    requires s.threads[0] == Running(0, 0, Looping) && s.server.slots[0].open
    ensures Reachable(t) && |t.threads| == MAX_TASKS && t.threads[0] == Running(0, 0, Failing)
    ensures t == s.(server := t.server, threads := t.threads)
    ensures t.server.count == s.server.count && !t.server.slots[0].open
  {
    Extend(s, Look(0));
    t := Do(s, Look(0));
    Extend(t, LookAgain(0, true));
    t := Do(t, LookAgain(0, true));
    Extend(t, FailReceive(0, true));
    t := Do(t, FailReceive(0, true));
  }

  /** A first client is welcomed and its reader fails, up to the close of its socket. */
  lemma FirstReaderFails() returns (t: State)
    ensures Reachable(t) && t.protocol && !t.stopped && t.accept.Top? && t.issued == 1
    ensures TasksFit(t.tasks) && |t.threads| == MAX_TASKS && t.tasks.taskCount == 1
    ensures forall j | 0 <= j < MAX_TASKS :: t.tasks.started[j] <==> j == 0
    ensures t.threads[0] == Running(0, 0, HandingUp(false, true)) && t.server.count == 1 && !t.server.slots[0].open
  {
    var s := FirstReaderBreaks();
    Extend(s, CloseSocket(0));
    t := Do(s, CloseSocket(0));
  }

  /** The first reader failed, the slot was opened anew for a second client with a reader of its own, and now the close
      of the failed reader's socket is due: it closes the second client's connection. */
  lemma FailedCloseCanHit() returns (s: State)
    ensures Reachable(s) && !s.stopped && CanDo(s, CloseSocket(0))
    ensures |s.threads| > 1 && s.threads[0] == Running(0, 0, Failing) && s.threads[1] == Running(0, 1, Looping)
    ensures OnOwn(s, 1) && !OnOwn(Do(s, CloseSocket(0)), 1)
  {
    var a := FirstReaderBreaks();
    PlaceFound(a, 0, 1);
    ClientWelcomed(a);
    s := Welcomed(a, 1);
    assert s.threads[0] == a.threads[0];
  }
}
