/** The server's connection slots, its connection counter and its pool of reader tasks, as values. */
module ServerPool {
  import opened SwarmTypes
  import opened Collections

  /** A server socket: whether it is open, and the client's device ID or 0. */
  datatype Slot = Slot(open: bool, id: U32)

  type Slots = s: seq<Slot> | |s| == MAX_CLIENTS witness seq(MAX_CLIENTS, _ => Slot(false, 0))

  /** The manager: its sockets and current_client_connections. */
  datatype Server = Server(slots: Slots, count: nat)

  const CLOSED := Slot(false, 0)

  predicate IsClosed(slot: Slot) {
    !slot.open
  }

  function FirstClosed(s: seq<Slot>, from: nat): (k: nat)
    requires from <= |s|
    ensures from <= k <= |s|
    ensures forall i | from <= i < k :: s[i].open
    ensures k < |s| ==> !s[k].open
  {
    First(s, IsClosed, from)
  }

  /** After an accept on the first closed slot. */
  function Opened(v: Server): Server
    requires FirstClosed(v.slots, 0) < MAX_CLIENTS
  {
    var k := FirstClosed(v.slots, 0);
    Server(v.slots[k := v.slots[k].(open := true)], v.count + 1)
  }

  /** After the manager's close: the counter is not taken below zero. */
  function ClosedAt(v: Server, i: nat): Server
    requires i < MAX_CLIENTS
  {
    Server(v.slots[i := CLOSED], if v.count > 0 then v.count - 1 else 0)
  }

  /** Only the transport of slot i closed: counter and ID stay. */
  function Severed(v: Server, i: nat): Server
    requires i < MAX_CLIENTS
  {
    v.(slots := v.slots[i := v.slots[i].(open := false)])
  }

  function AllClosed(): Server {
    Server(seq(MAX_CLIENTS, _ => CLOSED), 0)
  }

  /** The accept task's books: the started flags, the task counter, and the result of the latest join attempt. */
  datatype Tasks = Tasks(started: seq<bool>, taskCount: int, joinStatus: int)

  predicate TasksFit(t: Tasks) {
    |t.started| == MAX_TASKS
  }

  /** What pthread_tryjoin_np answers for a thread that still runs. */
  const BUSY := 16

  predicate IsUnstarted(started: bool) {
    !started
  }

  function FirstUnstarted(started: seq<bool>, from: nat): (j: nat)
    requires from <= |started|
    ensures from <= j <= |started|
    ensures forall i | from <= i < j :: started[i]
    ensures j < |started| ==> !started[j]
  {
    First(started, IsUnstarted, from)
  }

  /** After a reader was started on the first unstarted entry. */
  function Started(t: Tasks): Tasks
    requires TasksFit(t) && FirstUnstarted(t.started, 0) < MAX_TASKS
  {
    t.(started := t.started[FirstUnstarted(t.started, 0) := true], taskCount := t.taskCount + 1)
  }

  /** One entry of a reap pass; `finished` says whether its thread has ended. An entry that is not started leaves
      the previous entry's join status in force. */
  function ReapedAt(t: Tasks, i: nat, finished: bool): (t': Tasks)
    requires TasksFit(t) && i < MAX_TASKS
    ensures TasksFit(t')
  {
    var status := if t.started[i] then (if finished then 0 else BUSY) else t.joinStatus;
    if status == 0 then
      Tasks(t.started[i := false], if t.taskCount > 0 then t.taskCount - 1 else t.taskCount, status)
    else
      t.(joinStatus := status)
  }

  /** A reap pass over the entries before `end`. */
  function Reaped(t: Tasks, finished: seq<bool>, end: nat): (t': Tasks)
    requires TasksFit(t) && |finished| == MAX_TASKS && end <= MAX_TASKS
    ensures TasksFit(t')
  {
    if end == 0 then t else ReapedAt(Reaped(t, finished, end - 1), end - 1, finished[end - 1])
  }

  ghost function StartedSet(started: seq<bool>): set<nat> {
    set j: nat | j < |started| && started[j]
  }

  /** The counter counts no more than the started entries, of which there are at most MAX_TASKS. */
  ghost predicate TaskBound(t: Tasks) {
    TasksFit(t) && 0 <= t.taskCount <= |StartedSet(t.started)|
  }

  lemma StartedSetUpdate(started: seq<bool>, j: nat, b: bool)
    requires j < |started|
    ensures StartedSet(started[j := b]) == if b then StartedSet(started) + {j} else StartedSet(started) - {j}
  {
  }

  /** Starting and reaping keep the bound, whichever threads have ended and whatever join status is carried over. */
  lemma BoundKept(t: Tasks, i: nat, finished: bool)
    requires TaskBound(t) && i < MAX_TASKS
    ensures TaskBound(ReapedAt(t, i, finished))
    ensures FirstUnstarted(t.started, 0) < MAX_TASKS ==> TaskBound(Started(t))
  {
    StartedSetUpdate(t.started, i, false);
    if FirstUnstarted(t.started, 0) < MAX_TASKS {
      StartedSetUpdate(t.started, FirstUnstarted(t.started, 0), true);
    }
  }

  lemma ReapedAtStarted(t: Tasks, i: nat, finished: bool)
    requires TasksFit(t) && i < MAX_TASKS
    ensures forall j | 0 <= j < MAX_TASKS ::
              ReapedAt(t, i, finished).started[j] == (t.started[j] && !(j == i && finished))
  {
  }

  /** So the accept guard's `taskCount == MAX_TASKS` holds back an accept only when every entry is started. */
  lemma FullCountMeansAllStarted(t: Tasks)
    requires TaskBound(t)
    ensures t.taskCount <= MAX_TASKS
    ensures t.taskCount == MAX_TASKS ==> FirstUnstarted(t.started, 0) == MAX_TASKS
  {
    BelowCount(MAX_TASKS, StartedSet(t.started));
    var j := FirstUnstarted(t.started, 0);
    assert t.taskCount == MAX_TASKS && j < MAX_TASKS ==> j in StartedSet(t.started);
  }

  /** What a reap pass leaves started: exactly the started entries whose threads still run. */
  lemma {:induction false} ReapExact(t: Tasks, finished: seq<bool>, end: nat)
    requires TasksFit(t) && |finished| == MAX_TASKS && end <= MAX_TASKS
    ensures forall j | 0 <= j < MAX_TASKS ::
              Reaped(t, finished, end).started[j] == (t.started[j] && !(j < end && finished[j]))
    ensures TaskBound(t) ==> TaskBound(Reaped(t, finished, end))
  {
    if end > 0 {
      ReapExact(t, finished, end - 1);
      if TaskBound(t) {
        BoundKept(Reaped(t, finished, end - 1), end - 1, finished[end - 1]);
      }
    }
  }

  /** The latest started entry up to i has a thread that has ended; with none started, the join status from before the
      pass is zero. */
  ghost predicate CountsOff(t: Tasks, finished: seq<bool>, i: nat)
    requires TasksFit(t) && |finished| == MAX_TASKS
  {
    i < MAX_TASKS
    && if forall j | 0 <= j <= i :: !t.started[j] then t.joinStatus == 0
       else exists j :: 0 <= j <= i && LatestStarted(t, i, j) && finished[j]
  }

  ghost predicate LatestStarted(t: Tasks, i: nat, j: nat)
    requires TasksFit(t) && j <= i < MAX_TASKS
  {
    t.started[j] && forall l | j < l <= i :: !t.started[l]
  }

  ghost function CountedOff(t: Tasks, finished: seq<bool>, end: nat): set<nat>
    requires TasksFit(t) && |finished| == MAX_TASKS
  {
    set i: nat | i < end && CountsOff(t, finished, i)
  }

  /** The join status behind entry `end - 1`. */
  lemma {:induction false} ReapStatus(t: Tasks, finished: seq<bool>, end: nat)
    requires TasksFit(t) && |finished| == MAX_TASKS && end <= MAX_TASKS
    ensures Reaped(t, finished, end).joinStatus == 0
            <==> if end == 0 then t.joinStatus == 0 else CountsOff(t, finished, end - 1)
  {
    if end > 0 {
      ReapStatus(t, finished, end - 1);
      ReapExact(t, finished, end - 1);
      CountsOffNext(t, finished, end - 1);
    }
  }

  lemma CountedOffNext(t: Tasks, finished: seq<bool>, i: nat)
    requires TasksFit(t) && |finished| == MAX_TASKS && i < MAX_TASKS
    ensures |CountedOff(t, finished, i + 1)|
            == |CountedOff(t, finished, i)| + if CountsOff(t, finished, i) then 1 else 0
  {
    OneMoreOrNone(CountedOff(t, finished, i), CountedOff(t, finished, i + 1), i, CountsOff(t, finished, i));
  }

  /** What a pass takes off the counter, down to zero at most: one for each entry whose latest started predecessor,
      itself included, has ended. */
  lemma {:induction false} ReapCounts(t: Tasks, finished: seq<bool>, end: nat)
    requires TasksFit(t) && |finished| == MAX_TASKS && end <= MAX_TASKS && t.taskCount >= 0
    ensures var left := t.taskCount - |CountedOff(t, finished, end)|;
            Reaped(t, finished, end).taskCount == if left > 0 then left else 0
  {
    if end == 0 {
      assert CountedOff(t, finished, end) == {};
    } else {
      ReapCounts(t, finished, end - 1);
      ReapStatus(t, finished, end);
      CountedOffNext(t, finished, end - 1);
      OneReaped(Reaped(t, finished, end - 1), end - 1, finished[end - 1]);
    }
  }

  lemma OneReaped(t: Tasks, i: nat, finished: bool)
    requires TasksFit(t) && i < MAX_TASKS
    ensures var r := ReapedAt(t, i, finished);
            r.taskCount == if r.joinStatus == 0 && t.taskCount > 0 then t.taskCount - 1 else t.taskCount
  {
  }

  lemma CountsOffNext(t: Tasks, finished: seq<bool>, i: nat)
    requires TasksFit(t) && |finished| == MAX_TASKS && i < MAX_TASKS
    ensures CountsOff(t, finished, i)
            <==> if t.started[i] then finished[i]
                 else if i == 0 then t.joinStatus == 0
                 else CountsOff(t, finished, i - 1)
  {
    if t.started[i] {
      assert LatestStarted(t, i, i);
    } else if i > 0 {
      assert forall j | 0 <= j <= i - 1 :: LatestStarted(t, i, j) <==> LatestStarted(t, i - 1, j);
    }
  }

  /** The bound is not an equation: behind a joined entry every unstarted one is counted off as well. */
  lemma ReapUndercounts(t: Tasks, finished: seq<bool>, last: nat)
    requires TaskBound(t) && |finished| == MAX_TASKS && last + 1 < MAX_TASKS
    requires t.started[last] && finished[last] && t.taskCount == |StartedSet(t.started)| && t.taskCount >= 2
    requires forall j | 0 <= j < MAX_TASKS && j != last && t.started[j] :: !finished[j]
    requires forall j | last < j < MAX_TASKS :: !t.started[j]
    ensures var r := Reaped(t, finished, MAX_TASKS);
            r.taskCount < |StartedSet(r.started)|
  {
    ReapExact(t, finished, last);
    ReapExact(t, finished, MAX_TASKS);
    var r := Reaped(t, finished, MAX_TASKS);
    assert StartedSet(r.started) == StartedSet(t.started) - {last};
    ReapNeverRaises(t, finished, last);
    ReapTail(t, finished, last, MAX_TASKS);
  }

  lemma {:induction false} ReapNeverRaises(t: Tasks, finished: seq<bool>, end: nat)
    requires TaskBound(t) && |finished| == MAX_TASKS && end <= MAX_TASKS
    ensures 0 <= Reaped(t, finished, end).taskCount <= t.taskCount
  {
    if end > 0 {
      ReapNeverRaises(t, finished, end - 1);
    }
  }

  lemma {:induction false} ReapTail(t: Tasks, finished: seq<bool>, last: nat, end: nat)
    requires TaskBound(t) && |finished| == MAX_TASKS && last < end <= MAX_TASKS
    requires t.started[last] && finished[last] && forall j | last < j < MAX_TASKS :: !t.started[j]
    ensures var r := Reaped(t, finished, end);
            && r.joinStatus == 0
            && 0 <= r.taskCount
            && (r.taskCount == 0 || r.taskCount <= t.taskCount - (end - last))
    decreases end
  {
    ReapExact(t, finished, end - 1);
    if end - 1 > last {
      ReapTail(t, finished, last, end - 1);
    } else {
      ReapNeverRaises(t, finished, last);
    }
  }
}
