/** The send handler as one schedule of the sender's steps. */
module HandlerRuns {
  import opened SwarmTypes
  import opened HostFile
  import opened ConnectionMask
  import opened ClientPool
  import opened ClientRuns
  import opened Transitions
  import H = SendHandler

  /** What the mask answers for receiver r. */
  predicate MaskAllows(b: H.Before, e: H.Surroundings, r: U32) {
    Allows(Refreshed(b.mask, b.node, e.look), e.look.beyond, r)
  }

  /** What the mask answers for slot i. */
  predicate LetsThrough(b: H.Before, e: H.Surroundings, i: nat)
    requires H.Fits(e) && i < MAX_CLIENTS
  {
    Allows(Refreshed(H.MaskAt(b, e, i), b.node, e.looks[i]), e.looks[i].beyond, b.pool[i].id)
  }

  /** The answers the sender gets in this call: those of the mask, and the outcome of a send. */
  predicate Heard(b: H.Before, e: H.Surroundings, s: State, a: Action)
    requires H.Fits(e)
  {
    match a
    case AskMask(allowed) =>
      && s.sending.Routing?
      && (s.sending.receiver != BROADCAST ==> allowed == MaskAllows(b, e, s.sending.receiver))
    case CastAsk(allowed) =>
      s.sending.CastAsking? && s.sending.i < MAX_CLIENTS && allowed == LetsThrough(b, e, s.sending.i)
    case Transmit(status, brokenPipe) =>
      && s.sending.Transmitting?
      && status == e.outcomes[LookUp(s.pool, s.sending.receiver)] && brokenPipe == e.brokenPipe
    case Begin(_, _) => false
    case _ => !OfOpenTask(a)
  }

  /** The sender's steps within one call, with these answers. */
  ghost function SenderStep(lines: seq<Line>, b: H.Before, e: H.Surroundings): (State, Action) -> Option<State>
    requires H.Fits(e)
  {
    (s: State, a: Action) => if CanDo(lines, s, a) && Heard(b, e, s, a) then Some(Do(lines, s, a)) else None
  }

  /** What a step puts on the wire. */
  ghost function Sends(): (State, Action) -> seq<H.Event> {
    (s: State, a: Action) =>
      if a.Transmit? && s.sending.Transmitting? then [H.Sent(LookUp(s.pool, s.sending.receiver), s.sending.msg)]
      else if a.CastTransmit? && s.sending.CastTransmitting? then [H.Sent(s.sending.i, s.sending.msg)]
      else []
  }

  /** From s the sender alone can get to t, sending exactly these events on the way. */
  ghost predicate Goes(lines: seq<Line>, b: H.Before, e: H.Surroundings, s: State, events: seq<H.Event>, t: State)
    requires H.Fits(e)
  {
    Transitions.Goes(SenderStep(lines, b, e), Sends(), s, events, t)
  }

  lemma Stay(lines: seq<Line>, b: H.Before, e: H.Surroundings, s: State)
    requires H.Fits(e)
    ensures Goes(lines, b, e, s, [], s)
  {
    GoesNowhere(SenderStep(lines, b, e), Sends(), s);
  }

  /** One step in front of a schedule. */
  lemma Before(lines: seq<Line>, b: H.Before, e: H.Surroundings, s: State, a: Action, events: seq<H.Event>, t: State)
    requires H.Fits(e) && CanDo(lines, s, a) && Heard(b, e, s, a) && Goes(lines, b, e, Do(lines, s, a), events, t)
    ensures Goes(lines, b, e, s, Sends()(s, a) + events, t)
  {
    GoesFirst(SenderStep(lines, b, e), Sends(), s, a, events, t);
  }

  /** What a broadcast still sends from slot i on. */
  ghost function Rest(b: H.Before, e: H.Surroundings, data: seq<byte>, i: nat): seq<H.Event>
    requires H.Fits(e) && i <= MAX_CLIENTS
    decreases MAX_CLIENTS - i
  {
    if i == MAX_CLIENTS then []
    else (if b.pool[i].open && LetsThrough(b, e, i) then [H.Sent(i, data)] else []) + Rest(b, e, data, i + 1)
  }

  lemma {:induction false} RestIsTargets(b: H.Before, e: H.Surroundings, data: seq<byte>, i: nat)
    requires H.Fits(e) && i <= MAX_CLIENTS
    ensures H.SendsOn(H.Targets(b, e, i), data) + Rest(b, e, data, i) == H.SendsOn(H.Targets(b, e, MAX_CLIENTS), data)
    decreases MAX_CLIENTS - i
  {
    if i < MAX_CLIENTS {
      RestIsTargets(b, e, data, i + 1);
      var here := if H.Eligible(b, e, i) then [H.Sent(i, data)] else [];
      if H.Eligible(b, e, i) {
        H.SendsOnAppend(H.Targets(b, e, i), i, data);
      } else {
        assert H.Targets(b, e, i + 1) == H.Targets(b, e, i);
      }
      assert H.SendsOn(H.Targets(b, e, i + 1), data) == H.SendsOn(H.Targets(b, e, i), data) + here;
      assert Rest(b, e, data, i) == here + Rest(b, e, data, i + 1);
    } else {
      assert Rest(b, e, data, i) == [];
    }
  }

  /** A call that is under way on sockets as they were at its start. */
  ghost predicate UnderWay(s: State, b: H.Before, e: H.Surroundings) {
    H.Fits(e) && H.ZeroRefused(e) && s.pool == b.pool && SlotOk(s.opening)
  }

  lemma CastEnds(lines: seq<Line>, s: State, b: H.Before, e: H.Surroundings, data: seq<byte>)
    requires UnderWay(s, b, e) && s.sending == CastLooking(data, MAX_CLIENTS)
    ensures Goes(lines, b, e, s, [], s.(sending := NoSend))
  {
    Stay(lines, b, e, s.(sending := NoSend));
    Before(lines, b, e, s, CastLook, [], s.(sending := NoSend));
  }

  /** One turn of the broadcast loop. */
  lemma CastTurns(lines: seq<Line>, s: State, b: H.Before, e: H.Surroundings, data: seq<byte>, i: nat, done: State)
    requires UnderWay(s, b, e) && i < MAX_CLIENTS && s.sending == CastLooking(data, i)
    requires Goes(lines, b, e, s.(sending := CastLooking(data, i + 1)), Rest(b, e, data, i + 1), done)
    ensures Goes(lines, b, e, s, Rest(b, e, data, i), done)
  {
    var tail := Rest(b, e, data, i + 1);
    if s.pool[i].open && LetsThrough(b, e, i) {
      CastHits(lines, s, b, e, data, i, tail, done);
    } else {
      assert Rest(b, e, data, i) == tail;
      if s.pool[i].open {
        CastPasses(lines, s, b, e, data, i, tail, done);
      } else {
        Before(lines, b, e, s, CastLook, tail, done);
      }
    }
  }

  /** The broadcast loop from slot i on. */
  lemma {:induction false} CastGoes(lines: seq<Line>, s: State, b: H.Before, e: H.Surroundings, data: seq<byte>, i: nat)
    requires UnderWay(s, b, e) && i <= MAX_CLIENTS && s.sending == CastLooking(data, i)
    ensures Goes(lines, b, e, s, Rest(b, e, data, i), s.(sending := NoSend))
    decreases MAX_CLIENTS - i
  {
    if i == MAX_CLIENTS {
      CastEnds(lines, s, b, e, data);
    } else {
      CastGoes(lines, s.(sending := CastLooking(data, i + 1)), b, e, data, i + 1);
      CastTurns(lines, s, b, e, data, i, s.(sending := NoSend));
    }
  }

  lemma CastPasses(lines: seq<Line>, s: State, b: H.Before, e: H.Surroundings, data: seq<byte>, i: nat,
                   tail: seq<H.Event>, done: State)
    requires UnderWay(s, b, e) && i < MAX_CLIENTS && s.sending == CastLooking(data, i)
    requires s.pool[i].open && !LetsThrough(b, e, i)
    requires Goes(lines, b, e, s.(sending := CastLooking(data, i + 1)), tail, done)
    ensures Goes(lines, b, e, s, tail, done)
  {
    Before(lines, b, e, s.(sending := CastAsking(data, i)), CastAsk(false), tail, done);
    Before(lines, b, e, s, CastLook, tail, done);
  }

  lemma CastHits(lines: seq<Line>, s: State, b: H.Before, e: H.Surroundings, data: seq<byte>, i: nat,
                 tail: seq<H.Event>, done: State)
    requires UnderWay(s, b, e) && i < MAX_CLIENTS && s.sending == CastLooking(data, i)
    requires s.pool[i].open && LetsThrough(b, e, i)
    requires Goes(lines, b, e, s.(sending := CastLooking(data, i + 1)), tail, done)
    ensures Goes(lines, b, e, s, [H.Sent(i, data)] + tail, done)
  {
    Before(lines, b, e, s.(sending := CastTransmitting(data, i)), CastTransmit, tail, done);
    Before(lines, b, e, s.(sending := CastAsking(data, i)), CastAsk(true), [H.Sent(i, data)] + tail, done);
    Before(lines, b, e, s, CastLook, [H.Sent(i, data)] + tail, done);
  }

  /** The unicast branch for a receiver that is let through and connected. */
  lemma AdmittedGoes(lines: seq<Line>, s: State, b: H.Before, e: H.Surroundings, data: seq<byte>, r: U32, done: State)
    requires UnderWay(s, b, e) && r != BROADCAST && MaskAllows(b, e, r) && ConnectedToId(s.pool, r)
    requires s.sending == Routing(data, r)
    requires Goes(lines, b, e, s.(sending := Transmitting(data, r)), [H.Sent(LookUp(s.pool, r), data)], done)
    ensures Goes(lines, b, e, s, [H.Sent(LookUp(s.pool, r), data)], done)
  {
    var events := [H.Sent(LookUp(s.pool, r), data)];
    FoundGoes(lines, s.(sending := LookingUp(data, r)), b, e, data, r, events, done);
    MaskGoes(lines, s, b, e, data, r, events, done);
  }

  /** The lookup finds the receiver connected. */
  lemma FoundGoes(lines: seq<Line>, s: State, b: H.Before, e: H.Surroundings, data: seq<byte>, r: U32,
                  events: seq<H.Event>, done: State)
    requires UnderWay(s, b, e) && ConnectedToId(s.pool, r) && s.sending == LookingUp(data, r)
    requires Goes(lines, b, e, s.(sending := Transmitting(data, r)), events, done)
    ensures Goes(lines, b, e, s, events, done)
  {
    Before(lines, b, e, s, CheckId, events, done);
  }

  /** The mask lets the receiver through. */
  lemma MaskGoes(lines: seq<Line>, s: State, b: H.Before, e: H.Surroundings, data: seq<byte>, r: U32,
                 events: seq<H.Event>, done: State)
    requires UnderWay(s, b, e) && r != BROADCAST && MaskAllows(b, e, r) && s.sending == Routing(data, r)
    requires Goes(lines, b, e, s.(sending := LookingUp(data, r)), events, done)
    ensures Goes(lines, b, e, s, events, done)
  {
    Before(lines, b, e, s, AskMask(true), events, done);
  }

  /** The unicast branch for a receiver that is not. */
  lemma RefusedGoes(lines: seq<Line>, s: State, b: H.Before, e: H.Surroundings, data: seq<byte>, r: U32)
    requires UnderWay(s, b, e) && r != BROADCAST && !(MaskAllows(b, e, r) && ConnectedToId(s.pool, r))
    requires s.sending == Routing(data, r)
    ensures Goes(lines, b, e, s, [], s.(sending := NoSend))
  {
    var quiet := s.(sending := NoSend);
    Stay(lines, b, e, quiet);
    if MaskAllows(b, e, r) {
      Before(lines, b, e, s.(sending := LookingUp(data, r)), CheckId, [], quiet);
      MaskGoes(lines, s, b, e, data, r, [], quiet);
    } else {
      Before(lines, b, e, s, AskMask(false), [], quiet);
    }
  }

  /** The unicast branch. */
  lemma UnicastGoes(lines: seq<Line>, s: State, b: H.Before, e: H.Surroundings, r: U32, data: seq<byte>)
    requires UnderWay(s, b, e) && r != BROADCAST && s.sending == Routing(data, r)
    ensures Goes(lines, b, e, s, H.Sends(b, e, r, data), s.(pool := H.PoolAfter(b, e, r), sending := NoSend))
  {
    if H.Unicasts(b, e, r) {
      TransmitGoes(lines, s.(sending := Transmitting(data, r)), b, e, data, r);
      AdmittedGoes(lines, s, b, e, data, r, s.(pool := H.PoolAfter(b, e, r), sending := NoSend));
    } else {
      RefusedGoes(lines, s, b, e, data, r);
    }
  }

  lemma TransmitGoes(lines: seq<Line>, s: State, b: H.Before, e: H.Surroundings, data: seq<byte>, r: U32)
    requires UnderWay(s, b, e) && s.sending == Transmitting(data, r)
    ensures var k := LookUp(s.pool, r);
            var broken := e.outcomes[k].OtherError? && e.brokenPipe;
            Goes(lines, b, e, s, [H.Sent(k, data)],
                 s.(pool := if broken then s.pool[k := Closed(s.pool[k])] else s.pool, sending := NoSend))
  {
    var k := LookUp(s.pool, r);
    var breaks := e.outcomes[k].OtherError? && e.brokenPipe;
    var done := s.(pool := if breaks then s.pool[k := Closed(s.pool[k])] else s.pool, sending := NoSend);
    Stay(lines, b, e, done);
    if breaks {
      Before(lines, b, e, s.(sending := Breaking(r)), CloseBroken, [], done);
    }
    Before(lines, b, e, s, Transmit(e.outcomes[k], e.brokenPipe), [], done);
    assert [H.Sent(k, data)] + [] == [H.Sent(k, data)];
  }

  lemma CastFromRouting(lines: seq<Line>, s: State, b: H.Before, e: H.Surroundings, data: seq<byte>)
    requires UnderWay(s, b, e) && s.sending == Routing(data, BROADCAST)
    ensures Goes(lines, b, e, s, H.Sends(b, e, BROADCAST, data), s.(sending := NoSend))
  {
    RestIsTargets(b, e, data, 0);
    CastGoes(lines, s.(sending := CastLooking(data, 0)), b, e, data, 0);
    Before(lines, b, e, s, AskMask(false), Rest(b, e, data, 0), s.(sending := NoSend));
  }

  /** Once it has found its receiver, an undisturbed call of the send handler, on the answers that the mask and the
      transport give it and no others, comes to its end with the same sends on the same slots in the same order, and
      the same sockets afterwards. */
  lemma HandlerIsPath(lines: seq<Line>, s: State, b: H.Before, e: H.Surroundings, mem: seq<byte>, size: nat)
    requires UnderWay(s, b, e) && |mem| >= size + 6 && s.sending.NoSend?
    ensures var r := H.ReceiverOf(e, mem, size);
            var begun := Begin(mem[..size], r);
            && CanDo(lines, s, begun)
            && Goes(lines, b, e, Do(lines, s, begun), H.Sends(b, e, r, mem[..size]), s.(pool := H.PoolAfter(b, e, r)))
  {
    var (r, data) := (H.ReceiverOf(e, mem, size), mem[..size]);
    var begun := Do(lines, s, Begin(data, r));
    if r == BROADCAST {
      CastFromRouting(lines, begun, b, e, data);
      assert s.(pool := H.PoolAfter(b, e, r)) == begun.(sending := NoSend);
    } else {
      UnicastGoes(lines, begun, b, e, r, data);
      assert s.(pool := H.PoolAfter(b, e, r)) == begun.(pool := H.PoolAfter(b, e, r), sending := NoSend);
    }
  }
}
