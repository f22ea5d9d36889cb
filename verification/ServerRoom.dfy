/** When the server can still accept somebody. */
module ServerRoom {
  import opened SwarmTypes
  import opened ServerPool
  import opened ServerRuns
  import opened Transitions
  import Sockets = ServerSockets

  /** Steps that need nothing from a client. */
  predicate Quiet(a: Action) {
    match a
    case Accept(_, accepted) => !accepted
    case RecvClientId(received) => received == None
    case Receive(_, _) => false
    case Stop => false
    case _ => true
  }

  ghost function QuietStep(): (State, Action) -> Option<State> {
    (s: State, a: Action) => if CanDo(s, a) && Quiet(a) then Some(Do(s, a)) else None
  }

  /** The accept in hand will not get a reader whatever happens: there is no pool entry left for it, or its socket was
      closed under it, so that its server ID cannot be sent. */
  ghost predicate Doomed(s: State) {
    || ((s.accept.Ready? || s.accept.Identified? || (s.accept.Joined? && !s.protocol))
        && FirstUnstarted(s.tasks.started, 0) == |s.tasks.started|)
    || (s.accept.Identified? && s.accept.k < MAX_CLIENTS && !s.server.slots[s.accept.k].open)
  }

  /** The places lost for good, counting the one that is about to be lost. */
  ghost function Lost(s: State): nat {
    Leaked(s) + if Doomed(s) then 1 else 0
  }

  // ---- lost places stay lost ----

  lemma StepKeepsLost(s: State, a: Action)
    requires Inv(s) && !s.stopped && CanDo(s, a) && !a.Stop?
    ensures Lost(Do(s, a)) >= Lost(s)
  {
    if OfReader(a) {
      ReaderMoves(s, a);
    }
  }

  lemma LostStay(s: State, t: State)
    requires Inv(s) && !s.stopped && Reaches(Step(), s, t) && !t.stopped
    ensures Inv(t) && Lost(t) >= Lost(s)
  {
    var inv := (x: State) => Inv(x) && (!x.stopped ==> Lost(x) >= Lost(s));
    forall x: State, a | inv(x) && Step()(x, a).Some?
      ensures inv(Step()(x, a).value)
    {
      StepKeepsInv(x, a);
      if !x.stopped && !a.Stop? {
        StepKeepsLost(x, a);
      }
    }
    InvariantHolds(Step(), inv, s, t);
  }

  /** After MAX_CLIENTS lost places the server accepts no one until it is stopped, and every place is a lost one. */
  lemma LostPlacesStarve(s: State, t: State)
    requires Inv(s) && !s.stopped && Lost(s) >= MAX_CLIENTS
    requires Reaches(Step(), s, t) && !t.stopped
    ensures !t.accept.Guarded? && t.server.count == MAX_CLIENTS
    ensures Live(t.threads) == {}
  {
    LostStay(s, t);
  }

  // ---- a way to an accept ----

  /** One more quiet step. */
  lemma Onward(s: State, t: State, a: Action)
    requires Reaches(QuietStep(), s, t) && CanDo(t, a) && Quiet(a)
    ensures Reaches(QuietStep(), s, Do(t, a))
  {
    ReachesNext(QuietStep(), s, t, a, Do(t, a));
  }

  lemma QuietRuns(s: State, t: State)
    requires Reaches(QuietStep(), s, t)
    ensures Reaches(Step(), s, t)
  {
    ReachesAlso(QuietStep(), Step(), s, t);
  }

  lemma QuietKeepsInv(s: State, t: State)
    requires Inv(s) && !s.stopped && Reaches(QuietStep(), s, t)
    ensures Inv(t) && !t.stopped
  {
    var inv := (x: State) => Inv(x) && !x.stopped;
    forall x: State, a | inv(x) && QuietStep()(x, a).Some?
      ensures inv(QuietStep()(x, a).value)
    {
      StepKeepsInv(x, a);
    }
    InvariantHolds(QuietStep(), inv, s, t);
  }

  /** Quiet steps accept nobody. */
  ghost predicate SameConnections(s: State, t: State) {
    t.protocol == s.protocol && t.issued == s.issued && t.tickets == s.tickets && t.stopped == s.stopped
  }

  ghost predicate PoolFits(s: State) {
    && TasksFit(s.tasks) && |s.threads| == MAX_TASKS
    && forall j | 0 <= j < MAX_TASKS && s.threads[j].Running? :: s.threads[j].k < MAX_CLIENTS
  }

  ghost predicate SamePool(s: State, t: State) {
    t.tasks == s.tasks && t.threads == s.threads
  }

  /** Looking at the remaining pool entries. */
  lemma {:induction false} PassEnds(s0: State, s: State) returns (t: State)
    requires Reaches(QuietStep(), s0, s) && PoolFits(s) && !s.stopped && s.accept.Reaping?
    ensures Reaches(QuietStep(), s0, t) && PoolFits(t) && SameConnections(s, t)
    ensures t == s.(tasks := t.tasks, threads := t.threads, accept := Top)
    ensures forall j | 0 <= j < MAX_TASKS :: t.threads[j].Running? <==> s.threads[j].Running?
    ensures forall j | s.accept.i <= j < MAX_TASKS && s.threads[j].Finished? :: !t.tasks.started[j]
    ensures forall j | 0 <= j < MAX_TASKS && !s.tasks.started[j] :: !t.tasks.started[j]
    decreases if s.accept.i <= MAX_TASKS then MAX_TASKS - s.accept.i else 0
  {
    Onward(s0, s, Reap);
    var u := Do(s, Reap);
    t := u;
    if s.accept.i < MAX_TASKS {
      ReapedAtStarted(s.tasks, s.accept.i, s.threads[s.accept.i].Finished?);
      assert forall j | 0 <= j < MAX_TASKS && j != s.accept.i :: u.threads[j] == s.threads[j];
      t := PassEnds(s0, u);
    }
  }

  /** An accept in hand that is identified or dropped becomes ready or is gone. */
  lemma HandSettles(s0: State, s: State) returns (t: State)
    requires Reaches(QuietStep(), s0, s) && PoolFits(s) && !s.stopped
    requires s.accept.Identified? && s.accept.k < MAX_CLIENTS
    ensures Reaches(QuietStep(), s0, t) && Lost(t) == Lost(s) && SameConnections(s, t)
    ensures t.accept.Top? || t.accept == Ready(s.accept.k)
    ensures t == s.(server := t.server, accept := t.accept, severed := t.severed)
  {
    var a := SendServerId(s.server.slots[s.accept.k].open);
    Onward(s0, s, a);
    t := Do(s, a);
  }

  lemma HandJoined(s0: State, s: State) returns (t: State)
    requires Reaches(QuietStep(), s0, s) && PoolFits(s) && !s.stopped && s.accept.Joined? && s.accept.k < MAX_CLIENTS
    ensures Reaches(QuietStep(), s0, t) && Lost(t) == Lost(s) && SameConnections(s, t)
    ensures t.accept == Dropping(s.accept.k) || t.accept == Ready(s.accept.k)
    ensures t == s.(server := t.server, accept := t.accept)
  {
    var a := if s.protocol then RecvClientId(None) else SkipHandshake;
    Onward(s0, s, a);
    t := Do(s, a);
  }

  lemma HandStarts(s0: State, s: State) returns (t: State)
    requires Reaches(QuietStep(), s0, s) && PoolFits(s) && !s.stopped && s.accept.Ready? && s.accept.k < MAX_CLIENTS
    ensures Reaches(QuietStep(), s0, t) && t.accept.Top? && Lost(t) == Lost(s) && SameConnections(s, t)
    ensures SamePool(s, t) || Live(t.threads) != {}
  {
    Onward(s0, s, StartReader);
    t := Do(s, StartReader);
    var j := FirstUnstarted(s.tasks.started, 0);
    assert j < MAX_TASKS ==> j in Live(t.threads);
  }

  lemma HandDrops(s0: State, s: State) returns (t: State)
    requires Reaches(QuietStep(), s0, s) && PoolFits(s) && !s.stopped && s.accept.Dropping? && s.accept.k < MAX_CLIENTS
    ensures Reaches(QuietStep(), s0, t) && t.accept.Top? && Lost(t) == Lost(s) && SameConnections(s, t)
    ensures SamePool(s, t)
  {
    Onward(s0, s, Drop);
    t := Do(s, Drop);
  }

  /** The accept in hand is started or given up. */
  lemma HandEmpties(s0: State, s: State) returns (t: State)
    requires Reaches(QuietStep(), s0, s) && PoolFits(s) && !s.stopped
    requires InHand(s.accept).Some? && InHand(s.accept).value < MAX_CLIENTS
    ensures Reaches(QuietStep(), s0, t) && t.accept.Top? && Lost(t) == Lost(s) && SameConnections(s, t)
    ensures SamePool(s, t) || Live(t.threads) != {}
  {
    t := s;
    if t.accept.Joined? {
      t := HandJoined(s0, t);
    } else if t.accept.Identified? {
      t := HandSettles(s0, t);
    }
    if t.accept.Dropping? {
      t := HandDrops(s0, t);
    } else if t.accept.Ready? {
      t := HandStarts(s0, t);
    }
  }

  /** All pool entries are started and have ended readers, and the accept task will not look at them, because its
      counter does not say so: there will be no reader until all places are lost. */
  ghost predicate Exhausted(s: State) {
    && (forall j | 0 <= j < |s.threads| :: s.threads[j].Finished?)
    && s.tasks.taskCount < MAX_TASKS && !(s.accept.Reaping? && s.accept.i < MAX_TASKS)
  }

  lemma LastIsFreed(s: State, t: State)
    requires PoolShape(s.tasks, s.threads) && PoolShape(t.tasks, t.threads)
    requires forall j | 0 <= j < MAX_TASKS :: t.threads[j].Running? <==> s.threads[j].Running?
    requires s.threads[MAX_TASKS - 1].Finished? ==> !t.tasks.started[MAX_TASKS - 1]
    requires !s.tasks.started[MAX_TASKS - 1] ==> !t.tasks.started[MAX_TASKS - 1]
    ensures !Exhausted(t)
  {
    assert !t.threads[MAX_TASKS - 1].Finished?;
  }

  /** The pass in progress frees the last entry, if its reader has ended. */
  lemma PassRenews(s: State) returns (t: State)
    requires Inv(s) && !s.stopped && s.accept.Reaping?
    ensures Reaches(QuietStep(), s, t) && t.accept.Top? && Lost(t) == Lost(s) && SameConnections(s, t)
    ensures Exhausted(t) ==> Exhausted(s)
  {
    ReachesItself(QuietStep(), s);
    if s.accept.i < MAX_TASKS {
      t := PassEnds(s, s);
      QuietKeepsInv(s, t);
      LastIsFreed(s, t);
    } else {
      Onward(s, s, Reap);
      t := Do(s, Reap);
    }
  }

  /** The accept task gets back to the top of its loop, and leaves the pool no worse. */
  lemma AcceptRenews(s: State) returns (t: State)
    requires Inv(s) && !s.stopped
    ensures Reaches(QuietStep(), s, t) && t.accept.Top? && Lost(t) == Lost(s) && SameConnections(s, t)
    ensures Exhausted(t) ==> Exhausted(s)
  {
    ReachesItself(QuietStep(), s);
    t := s;
    if s.accept.Guarded? {
      Onward(s, s, Accept(false, false));
      t := Do(s, Accept(false, false));
    } else if s.accept.Reaping? {
      t := PassRenews(s);
    } else if InHand(s.accept).Some? {
      t := HandEmpties(s, s);
      if Live(t.threads) != {} {
        var j :| j in Live(t.threads);
        assert !t.threads[j].Finished?;
      }
    }
  }

  /** Reader j ended: its slot is closed and counted off, and nothing else is touched. */
  ghost predicate EndedFrom(s: State, t: State, j: nat)
    requires j < |s.threads| && s.threads[j].Running? && s.threads[j].k < MAX_CLIENTS
  {
    t == s.(server := ClosedAt(s.server, s.threads[j].k), threads := s.threads[j := Finished])
  }

  /** A reader past its loop, or having failed to receive, can end. */
  lemma FailedEnds(s0: State, s: State, j: nat) returns (t: State)
    requires Reaches(QuietStep(), s0, s) && PoolFits(s) && j < MAX_TASKS && s.threads[j].Running?
    requires var pc := s.threads[j].pc; GivesUp(pc) || pc.Leaving?
    ensures Reaches(QuietStep(), s0, t) && EndedFrom(s, t, j)
  {
    var u := s;
    if s.threads[j].pc.HandingUp? {
      Onward(s0, s, HandUp(j));
      u := Do(s, HandUp(j));
    }
    Onward(s0, u, Leave(j));
    t := Do(u, Leave(j));
    assert t.threads == s.threads[j := Finished];
    assert t.server == ClosedAt(s.server, s.threads[j].k);
  }

  /** A reader that is about to receive can end. */
  lemma ReceiverEnds(s0: State, s: State, j: nat) returns (t: State)
    requires Reaches(QuietStep(), s0, s) && PoolFits(s) && j < MAX_TASKS && s.threads[j].Running?
    requires s.threads[j].pc.Receiving? || s.threads[j].pc.Failing?
    ensures Reaches(QuietStep(), s0, t) && EndedFrom(s, t, j)
  {
    var u := s;
    if s.threads[j].pc.Receiving? {
      Onward(s0, s, FailReceive(j, true));
      u := Do(s, FailReceive(j, true));
    }
    Onward(s0, u, CloseSocket(j));
    u := Do(u, CloseSocket(j));
    t := FailedEnds(s0, u, j);
    assert t.threads == s.threads[j := Finished];
    assert t.server.slots == s.server.slots[s.threads[j].k := CLOSED];
  }

  /** A reader at the top of its loop can end. */
  lemma LooperEnds(s0: State, s: State, j: nat) returns (t: State)
    requires Reaches(QuietStep(), s0, s) && PoolFits(s) && !s.stopped && j < MAX_TASKS && s.threads[j].Running?
    requires s.threads[j].pc.Looping?
    ensures Reaches(QuietStep(), s0, t) && EndedFrom(s, t, j)
  {
    Onward(s0, s, Look(j));
    var u := Do(s, Look(j));
    if u.threads[j].pc.Looked? {
      Onward(s0, u, LookAgain(j, true));
      u := Do(u, LookAgain(j, true));
      t := ReceiverEnds(s0, u, j);
    } else {
      t := FailedEnds(s0, u, j);
    }
    assert t.threads == s.threads[j := Finished];
  }

  /** A reader in its loop comes to its top or to a receive. */
  lemma ReaderTurns(s0: State, s: State, j: nat) returns (t: State)
    requires Reaches(QuietStep(), s0, s) && PoolFits(s) && !s.stopped && j < MAX_TASKS && s.threads[j].Running?
    requires s.threads[j].pc.Looked? || HandsOn(s.threads[j].pc)
    ensures Reaches(QuietStep(), s0, t) && |t.threads| == MAX_TASKS
    ensures t == s.(threads := s.threads[j := t.threads[j]])
    ensures t.threads[j].Running? && t.threads[j].k == s.threads[j].k
    ensures t.threads[j].pc.Looping? || t.threads[j].pc.Receiving?
  {
    var a := if s.threads[j].pc.Looked? then LookAgain(j, true) else HandUp(j);
    Onward(s0, s, a);
    t := Do(s, a);
  }

  lemma ReaderEnds(s0: State, s: State, j: nat) returns (t: State)
    requires Reaches(QuietStep(), s0, s) && PoolFits(s) && !s.stopped && j < MAX_TASKS && s.threads[j].Running?
    ensures Reaches(QuietStep(), s0, t) && EndedFrom(s, t, j)
  {
    var u := s;
    if s.threads[j].pc.Looked? || HandsOn(s.threads[j].pc) {
      u := ReaderTurns(s0, s, j);
    }
    if u.threads[j].pc.Looping? {
      t := LooperEnds(s0, u, j);
    } else if u.threads[j].pc.Receiving? || u.threads[j].pc.Failing? {
      t := ReceiverEnds(s0, u, j);
    } else {
      t := FailedEnds(s0, u, j);
    }
    assert t.threads == s.threads[j := Finished];
  }

  /** All readers from entry j on can end. */
  lemma {:induction false} ReadersEnd(s0: State, s: State, j: nat) returns (t: State)
    requires Reaches(QuietStep(), s0, s) && PoolFits(s) && !s.stopped && j <= MAX_TASKS
    requires s.accept.Top? || s.accept.Reaping?
    requires forall i | 0 <= i < j :: !s.threads[i].Running?
    ensures Reaches(QuietStep(), s0, t) && PoolFits(t) && Lost(t) == Lost(s) && SameConnections(s, t)
    ensures t.accept == s.accept && t.tasks == s.tasks && Live(t.threads) == {}
    decreases MAX_TASKS - j
  {
    t := s;
    if j < MAX_TASKS {
      if s.threads[j].Running? {
        t := ReaderEnds(s0, s, j);
      }
      t := ReadersEnd(s0, t, j + 1);
    }
  }

  /** With every reader ended, a whole pass over the pool leaves no entry started. */
  lemma WholePassEmpties(s0: State, s: State) returns (t: State)
    requires Inv(s0) && !s0.stopped && Reaches(QuietStep(), s0, s) && s.accept == Reaping(0) && Live(s.threads) == {}
    ensures Reaches(QuietStep(), s0, t) && t.accept.Top? && Lost(t) == Lost(s) && SameConnections(s, t)
    ensures Live(t.threads) == {} && t.tasks.taskCount == 0
    ensures forall j | 0 <= j < |t.tasks.started| :: !t.tasks.started[j]
  {
    QuietKeepsInv(s0, s);
    t := PassEnds(s0, s);
    QuietKeepsInv(s0, t);
    forall j | 0 <= j < MAX_TASKS
      ensures !t.tasks.started[j]
    {
      assert j !in Live(s.threads);
    }
    assert StartedSet(t.tasks.started) == {};
  }

  /** With every reader ended, a full task counter is brought down by the next pass over the pool. */
  lemma PoolEmpties(s0: State, s: State) returns (t: State)
    requires Inv(s0) && !s0.stopped && Reaches(QuietStep(), s0, s) && s.accept.Top? && Live(s.threads) == {}
    ensures Reaches(QuietStep(), s0, t) && t.accept.Top? && Lost(t) == Lost(s) && SameConnections(s, t)
    ensures t.tasks.taskCount != MAX_TASKS && Live(t.threads) == {}
  {
    QuietKeepsInv(s0, s);
    t := s;
    if s.tasks.taskCount == MAX_TASKS {
      Onward(s0, s, Guard);
      t := WholePassEmpties(s0, Do(s, Guard));
    }
  }

  /** Without anything from a client the server can get back to the top of its accept loop with no reader alive; its
      counter then counts the lost places only, and the guard passes unless all places are lost. */
  lemma ServerRecovers(s: State) returns (t: State)
    requires Inv(s) && !s.stopped
    ensures Reaches(QuietStep(), s, t) && Inv(t) && !t.stopped && t.accept.Top? && Live(t.threads) == {}
    ensures SameConnections(s, t) && t.server.count == Lost(s) == Lost(t)
    ensures Sockets.GuardPasses(t.server, t.tasks) <==> Lost(s) < MAX_CLIENTS
  {
    t := AcceptRenews(s);
    QuietKeepsInv(s, t);
    t := ReadersEnd(s, t, 0);
    t := PoolEmpties(s, t);
    QuietKeepsInv(s, t);
  }

  /** The accept task is at the top of its loop and has a pool entry, or will look for one before it accepts. */
  ghost predicate EntryToCome(s: State) {
    && s.accept.Top?
    && (FirstUnstarted(s.tasks.started, 0) < |s.tasks.started| || !Sockets.GuardPasses(s.server, s.tasks))
  }

  /** Then it can recover and have a pool entry for the next client. */
  lemma ServerRecoversWithEntry(s: State) returns (t: State)
    requires Inv(s) && !s.stopped && EntryToCome(s)
    ensures Reaches(QuietStep(), s, t) && Inv(t) && !t.stopped && t.accept.Top? && Live(t.threads) == {}
    ensures SameConnections(s, t) && t.server.count == Lost(s) == Lost(t)
    ensures Sockets.GuardPasses(t.server, t.tasks) <==> Lost(s) < MAX_CLIENTS
    ensures FirstUnstarted(t.tasks.started, 0) < MAX_TASKS
  {
    ReachesItself(QuietStep(), s);
    t := s;
    if Sockets.GuardPasses(s.server, s.tasks) {
      t := ReadersEnd(s, s, 0);
    } else {
      Onward(s, s, Guard);
      t := ReadersEnd(s, Do(s, Guard), 0);
      t := WholePassEmpties(s, t);
    }
    QuietKeepsInv(s, t);
  }

  /** The server is ready for a client, who will get a reader or will not take the last place. */
  ghost predicate Renewed(s: State) {
    || FirstUnstarted(s.tasks.started, 0) < |s.tasks.started|
    || (Live(s.threads) != {} && Lost(s) + 1 < MAX_CLIENTS)
  }

  lemma UnstartedOrLive(s: State)
    requires Inv(s) && !s.stopped && s.accept.Top? && !Exhausted(s) && !EntryToCome(s)
    ensures Sockets.GuardPasses(s.server, s.tasks) && Live(s.threads) != {} && Lost(s) + 1 < MAX_CLIENTS
  {
    FullCountMeansAllStarted(s.tasks);
    var j :| 0 <= j < MAX_TASKS && !s.threads[j].Finished?;
    assert s.tasks.started[j];
    assert j in Live(s.threads);
  }

  /** A server that is not exhausted and has not lost all places gets ready for a client, without anything from one. */
  lemma ServerRenews(s: State) returns (t: State)
    requires Inv(s) && !s.stopped && Lost(s) < MAX_CLIENTS && !Exhausted(s)
    ensures Reaches(QuietStep(), s, t) && Inv(t) && !t.stopped && t.accept.Top? && SameConnections(s, t)
    ensures Sockets.GuardPasses(t.server, t.tasks) && Lost(t) == Lost(s) && Renewed(t)
  {
    var u := AcceptRenews(s);
    QuietKeepsInv(s, u);
    if EntryToCome(u) {
      t := ServerRecoversWithEntry(u);
      ReachesOn(QuietStep(), s, u, t);
    } else {
      UnstartedOrLive(u);
      t := u;
    }
  }

  /** Exhausted, or with all places lost. */
  ghost predicate Spent(s: State) {
    Exhausted(s) || Lost(s) >= MAX_CLIENTS
  }

  lemma LostAtMost(s: State)
    requires Inv(s) && !s.stopped
    ensures Lost(s) <= MAX_CLIENTS
    ensures Exhausted(s) ==> Live(s.threads) == {}
    ensures s.accept.Joined? && s.protocol ==> Lost(s) < MAX_CLIENTS
  {
    assert forall j | j in Live(s.threads) :: j < |s.threads| && !s.threads[j].Finished?;
  }

  /** A spent server stays so. */
  lemma StaysSpent(s: State, a: Action)
    requires Inv(s) && !s.stopped && Spent(s) && CanDo(s, a) && !a.Stop?
    ensures Spent(Do(s, a))
  {
    StepKeepsLost(s, a);
    LostAtMost(s);
    if Lost(s) < MAX_CLIENTS {
      ExhaustedStays(s, a);
    }
  }

  lemma ExhaustedStays(s: State, a: Action)
    requires Inv(s) && !s.stopped && Exhausted(s) && Lost(s) < MAX_CLIENTS && CanDo(s, a) && !a.Stop?
    requires Live(s.threads) == {}
    ensures Exhausted(Do(s, a))
  {
    assert forall j | 0 <= j < MAX_TASKS :: s.tasks.started[j];
    assert a.StartReader? ==> FirstUnstarted(s.tasks.started, 0) == MAX_TASKS;
  }

  /** Recording a client's ID costs a spent server a place. */
  lemma SpentLosesByMeeting(s: State, received: Option<seq<byte>>)
    requires Inv(s) && !s.stopped && Spent(s) && s.protocol && CanDo(s, RecvClientId(received))
    requires Do(s, RecvClientId(received)).accept.Identified?
    ensures Lost(Do(s, RecvClientId(received))) == Lost(s) + 1
  {
    LostAtMost(s);
    assert forall j | 0 <= j < MAX_TASKS :: s.tasks.started[j];
  }

  /** Before the stop the server can still come to accept a client exactly as long as the lost places, counting the one
      that is about to be lost, are fewer than MAX_CLIENTS. */
  lemma CanAcceptIff(s: State)
    requires Reachable(s) && !s.stopped
    ensures (exists t :: Reaches(Step(), s, t) && !t.stopped && t.accept.Guarded?) <==> Lost(s) < MAX_CLIENTS
  {
    ReachableInv(s);
    if Lost(s) < MAX_CLIENTS {
      var t := ServerRecovers(s);
      Onward(s, t, Guard);
      var u := Do(t, Guard);
      QuietRuns(s, u);
      assert Reaches(Step(), s, u) && u.accept.Guarded?;
    } else {
      forall t | Reaches(Step(), s, t) && !t.stopped
        ensures !t.accept.Guarded?
      {
        LostPlacesStarve(s, t);
      }
    }
  }
}
