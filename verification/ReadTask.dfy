/** The reader of one client: take a buffer, receive into it, hand it up, and close when the client is gone. */
module ReadTask {
  import opened SwarmTypes

  /** What one round of the read loop meets: the two looks at the open flag, the stop flag, the size of the buffer
      that was allocated (0 is a failed allocation), and what the receive returned. */
  datatype Round = Round(
    openedFirst: bool, openedThen: bool, stopping: bool, capacity: nat, outcome: SocketStatus, received: nat,
    stopAfter: bool)

  /** What the reader does, in order; buffers are numbered as they are allocated. */
  datatype Event =
    | Got(buffer: nat)
    | HandedUp(buffer: nat, ok: bool, size: nat)
    | TransportClosed
    | SlotClosed

  predicate Receives(r: Round) {
    r.openedFirst && r.openedThen && !r.stopping && r.capacity > 0
  }

  predicate Fails(r: Round) {
    Receives(r) && !r.outcome.Success? && !r.outcome.TryAgain?
  }

  /** The loop ends with this round. */
  predicate Last(r: Round) {
    !r.openedFirst || r.stopAfter || Fails(r)
  }

  /** One round: `buffers` have been allocated before it. */
  function RoundEvents(r: Round, buffers: nat): seq<Event> {
    if !r.openedFirst || !r.openedThen || r.stopping then []
    else if r.capacity == 0 then [Got(buffers), HandedUp(buffers, false, 0)]
    else if Fails(r) then [Got(buffers), TransportClosed, HandedUp(buffers, false, r.capacity)]
    else [Got(buffers), HandedUp(buffers, r.outcome.Success?, r.received)]
  }

  function Allocates(r: Round): nat {
    if r.openedFirst && r.openedThen && !r.stopping then 1 else 0
  }

  function AllocatedIn(rounds: seq<Round>): nat {
    if rounds == [] then 0 else AllocatedIn(rounds[..|rounds| - 1]) + Allocates(rounds[|rounds| - 1])
  }

  /** Everything the first rounds did. */
  function Log(rounds: seq<Round>): seq<Event> {
    if rounds == [] then []
    else
      var init := rounds[..|rounds| - 1];
      Log(init) + RoundEvents(rounds[|rounds| - 1], AllocatedIn(init))
  }

  /** One round; `taken` says whether a buffer was allocated. */
  method RunRound(r: Round, buffer: nat) returns (events: seq<Event>, taken: bool, ended: bool)
    ensures events == RoundEvents(r, buffer)
    ensures taken <==> Allocates(r) == 1
    ensures ended <==> Last(r)
  {
    events, taken := [], false;
    if !r.openedFirst {
      return events, taken, true;
    }
    var status := Success;
    if r.openedThen && !r.stopping {
      events, taken := events + [Got(buffer)], true;
      if r.capacity == 0 {
        events := events + [HandedUp(buffer, false, 0)];
      } else {
        status := r.outcome;
        var size := r.received;
        if !status.Success? && !status.TryAgain? {
          events := events + [TransportClosed];
          size := r.capacity;
        }
        events := events + [HandedUp(buffer, status.Success?, size)];
      }
    }
    ended := r.stopAfter || !(status.Success? || status.TryAgain?);
  }

  /** The reader on as many rounds as it is given; it has ended when it met its last round. */
  method Read(rounds: seq<Round>) returns (events: seq<Event>, ended: bool, used: nat)
    ensures used <= |rounds| && (ended || used == |rounds|)
    ensures ended <==> 0 < used && Last(rounds[used - 1])
    ensures forall i | 0 <= i < used - 1 :: !Last(rounds[i])
    ensures events == Log(rounds[..used]) + if ended then [SlotClosed] else []
    ensures forall i: nat, at: nat | i < used && at < |events| && UpOf(rounds, i, events, at) ::
              UpAsReceived(rounds[i], events[at])
  {
    events, ended, used := [], false, 0;
    var buffers := 0;
    while used < |rounds| && !ended
      invariant used <= |rounds|
      invariant ended <==> 0 < used && Last(rounds[used - 1])
      invariant forall i | 0 <= i < used - 1 :: !Last(rounds[i])
      invariant events == Log(rounds[..used]) && buffers == AllocatedIn(rounds[..used])
    {
      assert rounds[..used + 1][..used] == rounds[..used];
      var more, taken;
      more, taken, ended := RunRound(rounds[used], buffers);
      events, buffers := events + more, if taken then buffers + 1 else buffers;
      used := used + 1;
    }
    if ended {
      events := events + [SlotClosed];
    }
    LogTellsReceives(rounds, used, events);
  }

  lemma LogTellsReceives(rounds: seq<Round>, used: nat, events: seq<Event>)
    requires used <= |rounds| && (events == Log(rounds[..used]) || events == Log(rounds[..used]) + [SlotClosed])
    ensures forall i: nat, at: nat | i < used && at < |events| && UpOf(rounds, i, events, at) ::
              UpAsReceived(rounds[i], events[at])
  {
    forall i: nat, at: nat | i < used && at < |events| && UpOf(rounds, i, events, at)
      ensures UpAsReceived(rounds[i], events[at])
    {
      assert rounds[..used][..i] == rounds[..i];
      UpTellsReceive(rounds[..used], i, at);
    }
  }

  /** This event hands up the buffer of round i. */
  ghost predicate UpOf(rounds: seq<Round>, i: nat, events: seq<Event>, at: nat)
    requires i < |rounds| && at < |events|
  {
    AsksForBuffer(rounds[i]) && events[at].HandedUp? && events[at].buffer == AllocatedIn(rounds[..i])
  }

  ghost predicate GotAt(events: seq<Event>, i: int, buffer: nat) {
    0 <= i < |events| && events[i] == Got(buffer)
  }

  ghost predicate UpAt(events: seq<Event>, i: int, buffer: nat) {
    0 <= i < |events| && events[i].HandedUp? && events[i].buffer == buffer
  }

  ghost predicate TakenThenUp(events: seq<Event>, buffer: nat) {
    exists i, j :: i < j && GotAt(events, i, buffer) && UpAt(events, j, buffer)
  }

  /** Each of the first n buffers was allocated once and handed up once, later, before the next was allocated;
      no other buffer shows up. */
  ghost predicate Conserved(events: seq<Event>, n: nat) {
    && (forall i | 0 <= i < |events| && (events[i].Got? || events[i].HandedUp?) :: events[i].buffer < n)
    && (forall b: nat | b < n :: TakenThenUp(events, b))
    && (forall i, j | 0 <= i < j < |events| && events[i].Got? && events[j].Got? :: events[i].buffer < events[j].buffer)
    && (forall i, j | 0 <= i < j < |events| && events[i].HandedUp? && events[j].HandedUp? ::
          events[i].buffer < events[j].buffer)
  }

  lemma ConservedRound(events: seq<Event>, n: nat, r: Round)
    requires Conserved(events, n)
    ensures Conserved(events + RoundEvents(r, n), n + Allocates(r))
  {
    var more := RoundEvents(r, n);
    var all := events + more;
    forall b: nat | b < n + Allocates(r)
      ensures TakenThenUp(all, b)
    {
      if b < n {
        assert TakenThenUp(events, b);
        var i, j :| i < j && GotAt(events, i, b) && UpAt(events, j, b);
        assert GotAt(all, i, b) && UpAt(all, j, b);
      } else {
        var j := if Fails(r) then 2 else 1;
        assert more[0] == Got(n) && more[j].HandedUp?;
        assert GotAt(all, |events|, b) && UpAt(all, |events| + j, b);
      }
    }
  }

  /** Over every run, each buffer taken is handed up exactly once. */
  lemma {:induction false} BuffersConserved(rounds: seq<Round>)
    ensures Conserved(Log(rounds), AllocatedIn(rounds))
  {
    if rounds != [] {
      var init := rounds[..|rounds| - 1];
      BuffersConserved(init);
      ConservedRound(Log(init), AllocatedIn(init), rounds[|rounds| - 1]);
    }
  }

  // ---- what goes up with a buffer ----

  /** The round gets as far as asking for a buffer. */
  predicate AsksForBuffer(r: Round) {
    r.openedFirst && r.openedThen && !r.stopping
  }

  /** What was received goes up with its status and its size; a buffer whose receive failed keeps its whole size, and
      one that could not be allocated has none. */
  predicate UpAsReceived(r: Round, e: Event)
    requires e.HandedUp?
  {
    && (e.ok <==> r.capacity > 0 && r.outcome.Success?)
    && (r.capacity > 0 && (r.outcome.Success? || r.outcome.TryAgain?) ==> e.size == r.received)
    && (r.capacity > 0 && (r.outcome.Disconnected? || r.outcome.OtherError?) ==> e.size == r.capacity)
    && (r.capacity == 0 ==> e.size == 0)
  }

  /** In front of the hand-up is the allocation, or the close of the transport when the receive failed. */
  ghost predicate ClosedIfFailed(r: Round, log: seq<Event>, at: nat)
    requires 0 < at < |log| && log[at].HandedUp?
  {
    if r.capacity > 0 && (r.outcome.Disconnected? || r.outcome.OtherError?) then
      at > 1 && log[at - 1] == TransportClosed && log[at - 2] == Got(log[at].buffer)
    else log[at - 1] == Got(log[at].buffer)
  }

  lemma RoundUp(r: Round, n: nat, before: seq<Event>, at: nat)
    requires at < |before + RoundEvents(r, n)| && at >= |before|
    requires (before + RoundEvents(r, n))[at].HandedUp?
    ensures var all := before + RoundEvents(r, n);
            AsksForBuffer(r) && 0 < at && all[at].buffer == n && UpAsReceived(r, all[at]) && ClosedIfFailed(r, all, at)
  {
    var all := before + RoundEvents(r, n);
    assert all[at] == RoundEvents(r, n)[at - |before|];
  }

  /** Whatever the rounds meet, the event that hands the buffer of round i up tells how the receive of that very round
      ended: the status, the number of bytes, and the transport closed before it exactly if the receive failed. */
  lemma {:induction false} UpTellsReceive(rounds: seq<Round>, i: nat, at: nat)
    requires i < |rounds| && at < |Log(rounds)| && UpOf(rounds, i, Log(rounds), at)
    ensures UpAsReceived(rounds[i], Log(rounds)[at])
    ensures 0 < at && ClosedIfFailed(rounds[i], Log(rounds), at)
  {
    var (init, last) := (rounds[..|rounds| - 1], rounds[|rounds| - 1]);
    var log := Log(init);
    BuffersConserved(init);
    if i == |init| {
      assert at >= |log|;
      RoundUp(last, AllocatedIn(init), log, at);
    } else {
      assert init[..i] == rounds[..i];
      AllocatedGrows(init, i);
      if at >= |log| {
        RoundUp(last, AllocatedIn(init), log, at);
        assert false;
      }
      UpTellsReceive(init, i, at);
    }
  }

  /** The buffers of earlier rounds have smaller numbers. */
  lemma {:induction false} AllocatedGrows(rounds: seq<Round>, i: nat)
    requires i < |rounds| && AsksForBuffer(rounds[i])
    ensures AllocatedIn(rounds[..i]) < AllocatedIn(rounds)
  {
    var init := rounds[..|rounds| - 1];
    if i < |init| {
      assert init[..i] == rounds[..i];
      AllocatedGrows(init, i);
    }
  }

  /** The transport is closed in no other place. */
  lemma {:induction false} ClosesOnlyFailed(rounds: seq<Round>, at: nat)
    requires at < |Log(rounds)| && Log(rounds)[at].TransportClosed?
    ensures 0 < at < |Log(rounds)| - 1 && Log(rounds)[at - 1].Got?
    ensures var up := Log(rounds)[at + 1];
            up.HandedUp? && !up.ok && up.buffer == Log(rounds)[at - 1].buffer
  {
    if rounds != [] {
      var (init, last) := (rounds[..|rounds| - 1], rounds[|rounds| - 1]);
      var (log, more) := (Log(init), RoundEvents(last, AllocatedIn(init)));
      assert Log(rounds) == log + more;
      if at < |log| {
        ClosesOnlyFailed(init, at);
      } else {
        assert more[at - |log|] == Log(rounds)[at];
        assert at - |log| == 1;
      }
    }
  }
}
