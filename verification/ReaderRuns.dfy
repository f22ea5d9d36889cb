/** The read loop as one schedule of a reader's steps among those of the server. */
module ReaderRuns {
  import opened SwarmTypes
  import opened ServerPool
  import opened ServerRuns
  import opened Transitions
  import R = ReadTask

  /** What a reader does, leaving out which buffer and how full; `ok` is the status that goes up with the buffer. */
  datatype Deed = Takes | HandsUp(ok: bool) | ClosesSocket | ClosesSlot

  function DeedOf(e: R.Event): Deed {
    match e
    case Got(_) => Takes
    case HandedUp(_, ok, _) => HandsUp(ok)
    case TransportClosed => ClosesSocket
    case SlotClosed => ClosesSlot
  }

  function DeedsOf(events: seq<R.Event>): seq<Deed> {
    seq(|events|, i requires 0 <= i < |events| => DeedOf(events[i]))
  }

  /** The steps of the reader in entry j. */
  ghost function ReaderStep(j: nat): (State, Action) -> Option<State> {
    (s: State, a: Action) => if CanDo(s, a) && OfReader(a) && a.j == j then Some(Do(s, a)) else None
  }

  /** What each of them does. */
  ghost function Deeds(): (State, Action) -> seq<Deed> {
    (s: State, a: Action) =>
      match a
      case LookAgain(j, _) =>
        if ReaderAt(s, j, Looked) && s.server.slots[s.threads[j].k].open && !s.stopped then [Takes] else []
      case CloseSocket(_) => [ClosesSocket]
      case HandUp(j) => if j < |s.threads| && HasBuffer(s.threads[j]) then [HandsUp(s.threads[j].pc.ok)] else []
      case Leave(_) => [ClosesSlot]
      case _ => []
  }

  ghost predicate ReaderGoes(j: nat, s: State, deeds: seq<Deed>, t: State) {
    Goes(ReaderStep(j), Deeds(), s, deeds, t)
  }

  /** The answers the reader gets in a round: whether there is a buffer, and what the receive returns. */
  predicate Heard(r: R.Round, a: Action) {
    match a
    case LookAgain(_, buffer) => buffer == (r.capacity > 0)
    case Receive(_, ok) => r.outcome == if ok then Success else TryAgain
    case FailReceive(_, _) => r.outcome.Disconnected? || r.outcome.OtherError?
    case _ => true
  }

  /** The reader's steps in a round that gives it these answers. */
  ghost function RoundStep(j: nat, r: R.Round): (State, Action) -> Option<State> {
    (s: State, a: Action) => if CanDo(s, a) && OfReader(a) && a.j == j && Heard(r, a) then Some(Do(s, a)) else None
  }

  ghost predicate InRound(j: nat, r: R.Round, s: State, deeds: seq<Deed>, t: State) {
    Goes(RoundStep(j, r), Deeds(), s, deeds, t)
  }

  /** Reader j runs on slot k. */
  ghost predicate OnSlot(s: State, j: nat, k: nat, pc: ReaderPc) {
    && TasksFit(s.tasks) && |s.threads| == MAX_TASKS && j < MAX_TASKS && k < MAX_CLIENTS
    && s.threads[j].Running? && s.threads[j].k == k && s.threads[j].pc == pc
  }

  function At(s: State, j: nat, pc: ReaderPc): State
    requires j < |s.threads| && s.threads[j].Running?
  {
    s.(threads := Moved(s, j, pc))
  }

  lemma Stay(j: nat, r: R.Round, s: State)
    ensures InRound(j, r, s, [], s)
  {
    GoesNowhere(RoundStep(j, r), Deeds(), s);
  }

  lemma First(j: nat, r: R.Round, s: State, a: Action, deeds: seq<Deed>, t: State)
    requires CanDo(s, a) && OfReader(a) && a.j == j && Heard(r, a) && InRound(j, r, Do(s, a), deeds, t)
    ensures InRound(j, r, s, Deeds()(s, a) + deeds, t)
  {
    GoesFirst(RoundStep(j, r), Deeds(), s, a, deeds, t);
  }

  /** What a round meets when nobody else touches slot and stop flag meanwhile. */
  predicate Meets(r: R.Round, open: bool, stopped: bool) {
    r.openedFirst == open && r.openedThen == open && r.stopping == stopped && r.stopAfter == stopped
  }

  /** The state after a round that was met. */
  ghost function AfterRound(s: State, j: nat, r: R.Round): State
    requires j < |s.threads| && s.threads[j].Running? && s.threads[j].k < MAX_CLIENTS
  {
    if !R.Last(r) then s
    else s.(server := ClosedAt(s.server, s.threads[j].k), threads := s.threads[j := Finished])
  }

  lemma LeaveGoes(s: State, j: nat, k: nat, r: R.Round)
    requires OnSlot(s, j, k, Leaving)
    ensures InRound(j, r, s, [ClosesSlot], s.(server := ClosedAt(s.server, k), threads := s.threads[j := Finished]))
  {
    Stay(j, r, Do(s, Leave(j)));
    First(j, r, s, Leave(j), [], Do(s, Leave(j)));
    assert [ClosesSlot] + [] == [ClosesSlot];
  }

  /** The round ends with a buffer handed up. */
  lemma HandUpGoes(s: State, j: nat, k: nat, r: R.Round, ok: bool, failed: bool)
    requires OnSlot(s, j, k, HandingUp(ok, failed))
    ensures if failed || s.stopped then
              InRound(j, r, s, [HandsUp(ok), ClosesSlot],
                         s.(server := ClosedAt(s.server, k), threads := s.threads[j := Finished]))
            else InRound(j, r, s, [HandsUp(ok)], At(s, j, Looping))
  {
    var t := Do(s, HandUp(j));
    if failed || s.stopped {
      LeaveGoes(t, j, k, r);
      assert t.threads[j := Finished] == s.threads[j := Finished];
      First(j, r, s, HandUp(j), [ClosesSlot], t.(server := ClosedAt(t.server, k), threads := t.threads[j := Finished]));
      assert [HandsUp(ok)] + [ClosesSlot] == [HandsUp(ok), ClosesSlot];
    } else {
      Stay(j, r, t);
      First(j, r, s, HandUp(j), [], t);
      assert [HandsUp(ok)] + [] == [HandsUp(ok)];
    }
  }

  /** A receive that failed: the socket is closed before the buffer is handed up. */
  lemma FailGoes(s: State, j: nat, k: nat, r: R.Round)
    requires OnSlot(s, j, k, Receiving) && (r.outcome.Disconnected? || r.outcome.OtherError?)
    ensures InRound(j, r, s, [ClosesSocket, HandsUp(false), ClosesSlot],
                       s.(server := ClosedAt(s.server, k), threads := s.threads[j := Finished]))
  {
    var u := Do(s, FailReceive(j, false));
    var v := Do(u, CloseSocket(j));
    HandUpGoes(v, j, k, r, false, true);
    var done := s.(server := ClosedAt(s.server, k), threads := s.threads[j := Finished]);
    assert v.threads[j := Finished] == s.threads[j := Finished];
    assert ClosedAt(v.server, k).slots == ClosedAt(s.server, k).slots;
    First(j, r, u, CloseSocket(j), [HandsUp(false), ClosesSlot], done);
    assert [ClosesSocket] + [HandsUp(false), ClosesSlot] == [ClosesSocket, HandsUp(false), ClosesSlot];
    First(j, r, s, FailReceive(j, false), [ClosesSocket, HandsUp(false), ClosesSlot], done);
    assert [] + [ClosesSocket, HandsUp(false), ClosesSlot] == [ClosesSocket, HandsUp(false), ClosesSlot];
  }

  /** The second look, with a buffer or without one. */
  lemma TakeGoes(s: State, j: nat, k: nat, r: R.Round, deeds: seq<Deed>, done: State)
    requires OnSlot(s, j, k, Looked) && s.server.slots[k].open && !s.stopped
    requires InRound(j, r, At(s, j, if r.capacity > 0 then Receiving else HandingUp(false, false)), deeds, done)
    ensures InRound(j, r, s, [Takes] + deeds, done)
  {
    First(j, r, s, LookAgain(j, r.capacity > 0), deeds, done);
  }

  /** A receive that did not fail. */
  lemma ReceiveGoes(s: State, j: nat, k: nat, r: R.Round)
    requires OnSlot(s, j, k, Receiving) && !s.stopped && (r.outcome.Success? || r.outcome.TryAgain?)
    ensures InRound(j, r, s, [HandsUp(r.outcome.Success?)], At(s, j, Looping))
  {
    var t := Do(s, Receive(j, r.outcome.Success?));
    HandUpGoes(t, j, k, r, r.outcome.Success?, false);
    assert At(t, j, Looping) == At(s, j, Looping);
    First(j, r, s, Receive(j, r.outcome.Success?), [HandsUp(r.outcome.Success?)], At(s, j, Looping));
    assert [] + [HandsUp(r.outcome.Success?)] == [HandsUp(r.outcome.Success?)];
  }

  /** Without a buffer. */
  lemma NoBufferGoes(s: State, j: nat, k: nat, r: R.Round)
    requires OnSlot(s, j, k, Looked) && s.server.slots[k].open && !s.stopped && r.capacity == 0
    ensures InRound(j, r, s, [Takes] + [HandsUp(false)], At(s, j, Looping))
  {
    var t := At(s, j, HandingUp(false, false));
    HandUpGoes(t, j, k, r, false, false);
    assert At(t, j, Looping) == At(s, j, Looping);
    TakeGoes(s, j, k, r, [HandsUp(false)], At(s, j, Looping));
  }

  /** With a receive that fails. */
  lemma FailedBufferGoes(s: State, j: nat, k: nat, r: R.Round)
    requires OnSlot(s, j, k, Looked) && s.server.slots[k].open && !s.stopped && r.capacity > 0
    requires r.outcome.Disconnected? || r.outcome.OtherError?
    ensures InRound(j, r, s, [Takes] + [ClosesSocket, HandsUp(false), ClosesSlot],
                       s.(server := ClosedAt(s.server, k), threads := s.threads[j := Finished]))
  {
    var t := At(s, j, Receiving);
    FailGoes(t, j, k, r);
    assert t.threads[j := Finished] == s.threads[j := Finished];
    TakeGoes(s, j, k, r, [ClosesSocket, HandsUp(false), ClosesSlot],
             s.(server := ClosedAt(s.server, k), threads := s.threads[j := Finished]));
  }

  /** With one that does not. */
  lemma GoodBufferGoes(s: State, j: nat, k: nat, r: R.Round)
    requires OnSlot(s, j, k, Looked) && s.server.slots[k].open && !s.stopped && r.capacity > 0
    requires r.outcome.Success? || r.outcome.TryAgain?
    ensures InRound(j, r, s, [Takes] + [HandsUp(r.outcome.Success?)], At(s, j, Looping))
  {
    var t := At(s, j, Receiving);
    ReceiveGoes(t, j, k, r);
    assert At(t, j, Looping) == At(s, j, Looping);
    TakeGoes(s, j, k, r, [HandsUp(r.outcome.Success?)], At(s, j, Looping));
  }

  /** What a round does with its buffer. */
  function InBuffer(r: R.Round): seq<Deed> {
    if R.Fails(r) then [ClosesSocket, HandsUp(false), ClosesSlot]
    else [HandsUp(r.capacity > 0 && r.outcome.Success?)]
  }

  /** The part of a round behind the second look, on an open slot before the stop. */
  lemma BufferGoes(s: State, j: nat, k: nat, r: R.Round)
    requires OnSlot(s, j, k, Looked) && s.server.slots[k].open && !s.stopped && Meets(r, true, false)
    ensures InRound(j, r, s, [Takes] + InBuffer(r),
                       AfterRound(At(s, j, Looping), j, r))
  {
    if r.capacity == 0 {
      NoBufferGoes(s, j, k, r);
    } else if R.Fails(r) {
      FailedBufferGoes(s, j, k, r);
      assert At(s, j, Looping).threads[j := Finished] == s.threads[j := Finished];
    } else {
      GoodBufferGoes(s, j, k, r);
    }
  }

  lemma RoundDeeds(r: R.Round, buffer: nat)
    requires Meets(r, true, false)
    ensures DeedsOf(R.RoundEvents(r, buffer)) + (if R.Last(r) then [ClosesSlot] else [])
            == [Takes] + InBuffer(r)
  {
  }

  lemma DeedsAdd(a: seq<R.Event>, b: seq<R.Event>)
    ensures DeedsOf(a + b) == DeedsOf(a) + DeedsOf(b)
  {
  }

  /** A round of the read loop, closing the slot behind its last one, is a schedule of the steps the reader takes when
      it gets the round's own answers. */
  lemma RoundGoes(s: State, j: nat, k: nat, r: R.Round, buffer: nat)
    requires OnSlot(s, j, k, Looping) && Meets(r, s.server.slots[k].open, s.stopped)
    ensures InRound(j, r, s, DeedsOf(R.RoundEvents(r, buffer)) + (if R.Last(r) then [ClosesSlot] else []),
                       AfterRound(s, j, r))
  {
    var t := Do(s, Look(j));
    var deeds := DeedsOf(R.RoundEvents(r, buffer)) + (if R.Last(r) then [ClosesSlot] else []);
    if s.server.slots[k].open && !s.stopped {
      BufferGoes(t, j, k, r);
      RoundDeeds(r, buffer);
      assert At(t, j, Looping) == s;
    } else {
      QuitGoes(t, j, k, r);
      assert t.threads[j := Finished] == s.threads[j := Finished];
      assert deeds == [ClosesSlot];
    }
    First(j, r, s, Look(j), deeds, AfterRound(s, j, r));
    assert [] + deeds == deeds;
  }

  /** After a look at a closed slot, or after the stop, the reader leaves. */
  lemma QuitGoes(s: State, j: nat, k: nat, r: R.Round)
    requires OnSlot(s, j, k, Leaving) || (OnSlot(s, j, k, Looked) && s.stopped)
    ensures InRound(j, r, s, [ClosesSlot], s.(server := ClosedAt(s.server, k), threads := s.threads[j := Finished]))
  {
    if s.threads[j].pc.Looked? {
      var u := Do(s, LookAgain(j, r.capacity > 0));
      LeaveGoes(u, j, k, r);
      assert u.threads[j := Finished] == s.threads[j := Finished];
      First(j, r, s, LookAgain(j, r.capacity > 0), [ClosesSlot],
            s.(server := ClosedAt(s.server, k), threads := s.threads[j := Finished]));
      assert [] + [ClosesSlot] == [ClosesSlot];
    } else {
      LeaveGoes(s, j, k, r);
    }
  }

  /** And so is the rest of a round in which somebody closes the slot between the reader's two looks. */
  lemma ClosedBetweenGoes(s: State, j: nat, k: nat, r: R.Round, buffer: nat)
    requires OnSlot(s, j, k, Looked) && !s.server.slots[k].open
    requires r.openedFirst && !r.openedThen && r.stopAfter == s.stopped
    ensures InRound(j, r, s, DeedsOf(R.RoundEvents(r, buffer)) + (if R.Last(r) then [ClosesSlot] else []),
                    AfterRound(At(s, j, Looping), j, r))
  {
    var t := Do(s, LookAgain(j, r.capacity > 0));
    assert DeedsOf(R.RoundEvents(r, buffer)) == [];
    if s.stopped {
      LeaveGoes(t, j, k, r);
      assert t.threads[j := Finished] == At(s, j, Looping).threads[j := Finished];
      First(j, r, s, LookAgain(j, r.capacity > 0), [ClosesSlot], AfterRound(At(s, j, Looping), j, r));
    } else {
      Stay(j, r, t);
      First(j, r, s, LookAgain(j, r.capacity > 0), [], t);
    }
  }

  lemma RoundIsPath(s: State, j: nat, k: nat, r: R.Round, buffer: nat)
    requires OnSlot(s, j, k, Looping) && Meets(r, s.server.slots[k].open, s.stopped)
    ensures ReaderGoes(j, s, DeedsOf(R.RoundEvents(r, buffer)) + (if R.Last(r) then [ClosesSlot] else []),
                       AfterRound(s, j, r))
  {
    RoundGoes(s, j, k, r, buffer);
    GoesAlso(RoundStep(j, r), ReaderStep(j), Deeds(), s,
             DeedsOf(R.RoundEvents(r, buffer)) + (if R.Last(r) then [ClosesSlot] else []), AfterRound(s, j, r));
  }

  lemma LogNext(init: seq<R.Round>, last: R.Round)
    ensures DeedsOf(R.Log(init + [last])) == DeedsOf(R.Log(init)) + DeedsOf(R.RoundEvents(last, R.AllocatedIn(init)))
  {
    assert (init + [last])[..|init|] == init;
    DeedsAdd(R.Log(init), R.RoundEvents(last, R.AllocatedIn(init)));
  }

  lemma ThenGoes(j: nat, s: State, first: seq<Deed>, t: State, second: seq<Deed>, u: State)
    requires ReaderGoes(j, s, first, t) && ReaderGoes(j, t, second, u)
    ensures ReaderGoes(j, s, first + second, u)
  {
    GoesOn(ReaderStep(j), Deeds(), s, first, t, second, u);
  }

  /** Rounds that do not end the loop. */
  lemma {:induction false} LoopIsPath(s: State, j: nat, k: nat, rounds: seq<R.Round>)
    requires OnSlot(s, j, k, Looping)
    requires forall r | r in rounds :: Meets(r, s.server.slots[k].open, s.stopped) && !R.Last(r)
    ensures ReaderGoes(j, s, DeedsOf(R.Log(rounds)), s)
  {
    if rounds == [] {
      GoesNowhere(ReaderStep(j), Deeds(), s);
      assert DeedsOf(R.Log(rounds)) == [];
    } else {
      var (init, last) := (rounds[..|rounds| - 1], rounds[|rounds| - 1]);
      assert init + [last] == rounds;
      LoopIsPath(s, j, k, init);
      RoundIsPath(s, j, k, last, R.AllocatedIn(init));
      LogNext(init, last);
      var deeds := DeedsOf(R.RoundEvents(last, R.AllocatedIn(init)));
      assert deeds + [] == deeds;
      ThenGoes(j, s, DeedsOf(R.Log(init)), s, deeds, s);
    }
  }

  lemma DeedsJoin(a: seq<Deed>, b: seq<Deed>, c: seq<Deed>)
    ensures a + (b + c) == a + b + c
  {
  }

  /** The whole reader, up to the round that ends its loop, is a schedule of the reader's steps that takes buffers,
      hands them up and closes in the order of the read loop's log, with the final close of the slot at its end. */
  lemma ReaderIsPath(s: State, j: nat, k: nat, rounds: seq<R.Round>, last: R.Round)
    requires OnSlot(s, j, k, Looping)
    requires forall r | r in rounds :: Meets(r, s.server.slots[k].open, s.stopped) && !R.Last(r)
    requires Meets(last, s.server.slots[k].open, s.stopped) && R.Last(last)
    ensures ReaderGoes(j, s, DeedsOf(R.Log(rounds + [last])) + [ClosesSlot],
                       s.(server := ClosedAt(s.server, k), threads := s.threads[j := Finished]))
  {
    LoopIsPath(s, j, k, rounds);
    RoundIsPath(s, j, k, last, R.AllocatedIn(rounds));
    LogNext(rounds, last);
    var (log, deeds) := (DeedsOf(R.Log(rounds)), DeedsOf(R.RoundEvents(last, R.AllocatedIn(rounds))));
    ThenGoes(j, s, log, s, deeds + [ClosesSlot], AfterRound(s, j, last));
    DeedsJoin(log, deeds, [ClosesSlot]);
  }
}
