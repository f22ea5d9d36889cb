/** The ten client sockets of a node as values, and the lookups made in them. */
module ClientPool {
  import opened SwarmTypes
  import opened Collections

  /** A client socket: whether it is open, the server's device ID or 0, and the endpoint last set. */
  datatype Slot = Slot(open: bool, id: U32, host: string, port: U16)

  type Pool = p: seq<Slot> | |p| == MAX_CLIENTS witness seq(MAX_CLIENTS, _ => Slot(false, 0, "", 0))

  /** The size of the buffer the connection task parses host names into. */
  const HOST_BUFFER: nat := 20

  /** Host comparison looks at as many characters as a 64-bit address has bytes. */
  const COMPARED: nat := 8

  const NUL: char := '\0'

  /** A character of a host name that is stored zero-padded. */
  function CharAt(s: string, i: nat): char {
    if i < |s| then s[i] else NUL
  }

  /** The characters before the first NUL. */
  function CString(buf: string): (s: string)
    ensures s <= buf && NUL !in s
  {
    if |buf| == 0 || buf[0] == NUL then [] else [buf[0]] + CString(buf[1..])
  }

  /** A buffer after a string conversion wrote `s` and its NUL over its old contents. */
  function Written(buf: string, s: string): (buf': string)
    requires |s| < |buf|
    ensures |buf'| == |buf|
  {
    seq(|buf|, i requires 0 <= i < |buf| => if i < |s| then s[i] else if i == |s| then NUL else buf[i])
  }

  /** The comparison of a socket's endpoint with the raw buffer and a port. */
  predicate HostMatches(slot: Slot, buf: string, port: U16)
    requires |buf| >= COMPARED
  {
    && (forall i | 0 <= i < COMPARED :: buf[i] == CharAt(slot.host, i))
    && port == slot.port
  }

  function ToU16(port: int): U16 {
    port % 0x1_0000
  }

  /** Ports below 2^16 are taken as they are, others cut to sixteen bits. */
  lemma PortCut(port: int)
    ensures 0 <= port < 0x1_0000 ==> ToU16(port) == port
    ensures (ToU16(port) - port) % 0x1_0000 == 0
  {
  }

  /** What the driver really tells endpoints apart by. */
  datatype Key = Key(host: string, port: U16)

  function KeyOf(host: string, port: U16): Key {
    Key(seq(COMPARED, i requires 0 <= i => CharAt(host, i)), port)
  }

  function SlotKey(slot: Slot): Key {
    KeyOf(slot.host, slot.port)
  }

  /** Host names the parse buffer can hold. */
  predicate HostFits(host: string) {
    |host| < HOST_BUFFER && NUL !in host
  }

  /** Long enough to fill, with its NUL, everything the comparison looks at. */
  predicate HostTrusted(host: string) {
    |host| >= COMPARED - 1
  }

  /** Where the comparison looks, the buffer holds the host, zero-padded. */
  predicate ReadsAs(buf: string, host: string) {
    |buf| >= COMPARED && forall i | 0 <= i < COMPARED :: buf[i] == CharAt(host, i)
  }

  /** For this host the comparison means equality of keys, whatever was in the buffer before. */
  ghost predicate ComparesByKey(host: string)
    requires HostFits(host)
  {
    forall buf: string, slot: Slot, port: U16 | |buf| == HOST_BUFFER ::
      HostMatches(slot, Written(buf, host), port) <==> SlotKey(slot) == KeyOf(host, port)
  }

  lemma HostMatchesKey(slot: Slot, buf: string, host: string, port: U16)
    requires ReadsAs(buf, host)
    ensures HostMatches(slot, buf, port) <==> SlotKey(slot) == KeyOf(host, port)
  {
    var (a, b) := (SlotKey(slot).host, KeyOf(host, port).host);
    assert forall i | 0 <= i < COMPARED :: a[i] == CharAt(slot.host, i) && b[i] == CharAt(host, i);
    if HostMatches(slot, buf, port) {
      assert a == b;
    }
  }

  /** The first eight characters, or all of a shorter string. */
  function FirstEight(s: string): string {
    if |s| < 8 then s else s[..8]
  }

  /** A socket matches the raw buffer exactly if its port is the same and the buffer starts with the first eight
      characters of its host, with NULs behind a shorter one up to there. */
  lemma MatchesRaw(slot: Slot, buf: string, port: U16)
    requires |buf| >= COMPARED
    ensures HostMatches(slot, buf, port)
            <==> && slot.port == port && FirstEight(slot.host) <= buf
                 && forall i | |slot.host| <= i < 8 :: buf[i] == NUL
  {
    var first := FirstEight(slot.host);
    if HostMatches(slot, buf, port) {
      assert forall i | 0 <= i < |first| :: first[i] == buf[i];
      assert first == buf[..|first|];
    }
  }

  /** Two hosts on one port count as one endpoint exactly if they agree in their first eight characters. */
  lemma SameKeyIff(a: string, b: string, port: U16, port': U16)
    requires NUL !in a && NUL !in b
    ensures KeyOf(a, port) == KeyOf(b, port') <==> FirstEight(a) == FirstEight(b) && port == port'
  {
    var (x, y) := (KeyOf(a, port).host, KeyOf(b, port').host);
    assert forall i: nat | i < 8 :: x[i] == CharAt(a, i) && y[i] == CharAt(b, i);
    if x == y {
      if |a| < 8 || |b| < 8 {
        if |a| < 8 {
          ShortKeyMeansHost(a, b, port, port);
        } else {
          ShortKeyMeansHost(b, a, port, port);
        }
      } else {
        forall i: nat | i < 8
          ensures a[..8][i] == b[..8][i]
        {
          assert a[i] == x[i] && b[i] == y[i];
        }
      }
    }
    if FirstEight(a) == FirstEight(b) {
      forall i: nat | i < 8
        ensures x[i] == y[i]
      {
        EndsWhere(a, i);
        EndsWhere(b, i);
        assert i < |a| && i < |b| ==> FirstEight(a)[i] == a[i] && FirstEight(b)[i] == b[i];
      }
      assert x == y;
    }
  }

  /** The comparison can be trusted exactly for hosts of seven characters or more, as every dotted quad has. */
  lemma ComparisonTrustedIff(host: string)
    requires HostFits(host)
    ensures ComparesByKey(host) <==> HostTrusted(host)
  {
    if HostTrusted(host) {
      forall buf: string, slot: Slot, port: U16 | |buf| == HOST_BUFFER
        ensures HostMatches(slot, Written(buf, host), port) <==> SlotKey(slot) == KeyOf(host, port)
      {
        HostMatchesKey(slot, Written(buf, host), host, port);
      }
    } else {
      var buf: string := seq(HOST_BUFFER, _ => 'x');
      var slot := Slot(true, 0, host, 0);
      assert Written(buf, host)[|host| + 1] == 'x' && CharAt(host, |host| + 1) == NUL;
      assert !HostMatches(slot, Written(buf, host), 0) && SlotKey(slot) == KeyOf(host, 0);
    }
  }

  /** Where the first NUL is decides the string. */
  lemma {:induction false} CStringEnds(buf: string, n: nat)
    requires n <= |buf| && NUL !in buf[..n] && (n < |buf| ==> buf[n] == NUL)
    ensures CString(buf) == buf[..n]
    decreases n
  {
    if n > 0 {
      assert buf[..n][0] == buf[0] && buf[1..][..n - 1] == buf[..n][1..];
      CStringEnds(buf[1..], n - 1);
    }
  }

  lemma WrittenIsCString(buf: string, host: string)
    requires |host| < |buf| && NUL !in host
    ensures CString(Written(buf, host)) == host
    ensures Written(buf, host) == host + [NUL] + buf[|host| + 1..]
  {
    assert Written(buf, host)[..|host|] == host;
    CStringEnds(Written(buf, host), |host|);
  }

  predicate IsClosed(slot: Slot) {
    !slot.open
  }

  /** The first closed slot from `from` on, or |p|. */
  function FirstClosed(p: seq<Slot>, from: nat): (k: nat)
    requires from <= |p|
    ensures from <= k <= |p|
    ensures forall i | from <= i < k :: p[i].open
    ensures k < |p| ==> !p[k].open
  {
    First(p, IsClosed, from)
  }

  /** The first slot that carries the ID, open or not, from `from` on, or |p|. */
  function FirstWithId(p: seq<Slot>, id: U32, from: nat): (k: nat)
    requires from <= |p|
    ensures from <= k <= |p|
    ensures forall i | from <= i < k :: p[i].id != id
    ensures k < |p| ==> p[k].id == id
    decreases |p| - from
  {
    if from == |p| || p[from].id == id then from else FirstWithId(p, id, from + 1)
  }

  /** The slot an ID lookup ends at: it falls back on slot 0. */
  function LookUp(p: Pool, id: U32): (k: nat)
    ensures k < MAX_CLIENTS
  {
    var k := FirstWithId(p, id, 0);
    if k < MAX_CLIENTS then k else 0
  }

  /** The lookup goes by the ID alone: the first slot that carries it, or slot 0 when none does. */
  lemma LookUpFirst(p: Pool, id: U32, k: nat)
    requires k < MAX_CLIENTS
    ensures LookUp(p, id) == k
            <==> || (p[k].id == id && forall i | 0 <= i < k :: p[i].id != id)
                 || (k == 0 && forall i | 0 <= i < MAX_CLIENTS :: p[i].id != id)
  {
  }

  predicate ConnectedToId(p: Pool, id: U32) {
    exists k | 0 <= k < MAX_CLIENTS :: p[k].open && p[k].id == id
  }

  predicate ConnectedToHost(p: Pool, buf: string, port: U16)
    requires |buf| >= COMPARED
  {
    exists k | 0 <= k < MAX_CLIENTS :: p[k].open && HostMatches(p[k], buf, port)
  }

  /** A slot after the derived close, which also forgets the ID. */
  function Closed(slot: Slot): Slot {
    slot.(open := false, id := 0)
  }

  /** No two open slots agree in what the driver tells endpoints apart by. */
  ghost predicate EndpointsUnique(p: Pool) {
    forall j, k | 0 <= j < k < MAX_CLIENTS && p[j].open && p[k].open :: SlotKey(p[j]) != SlotKey(p[k])
  }

  ghost predicate ClosedHaveNoId(p: Pool) {
    forall k | 0 <= k < MAX_CLIENTS && !p[k].open :: p[k].id == 0
  }

  /** With no ID left on closed slots, looking an ID up agrees with having checked that it is connected. */
  lemma LookUpAgrees(p: Pool, id: U32)
    requires ClosedHaveNoId(p) && id != 0 && ConnectedToId(p, id)
    ensures p[LookUp(p, id)].open && p[LookUp(p, id)].id == id
  {
  }

  /** The whole endpoint: what the driver connects to, and more than it tells endpoints apart by. */
  function SlotAddress(slot: Slot): (string, U16) {
    (slot.host, slot.port)
  }

  /** The endpoints the open slots are on. */
  ghost function OpenAddresses(p: seq<Slot>): set<(string, U16)> {
    set k | 0 <= k < |p| && p[k].open :: SlotAddress(p[k])
  }

  /** Their keys. */
  ghost function OpenKeys(p: seq<Slot>): set<Key> {
    set k | 0 <= k < |p| && p[k].open :: SlotKey(p[k])
  }

  lemma OpenKeysOfInit(p: seq<Slot>)
    requires |p| > 0 && p[|p| - 1].open
    ensures OpenKeys(p) == OpenKeys(p[..|p| - 1]) + {SlotKey(p[|p| - 1])}
  {
    var init := p[..|p| - 1];
    forall x | x in OpenKeys(init)
      ensures x in OpenKeys(p)
    {
      var k :| 0 <= k < |init| && init[k].open && SlotKey(init[k]) == x;
      assert p[k] == init[k];
    }
    forall x | x in OpenKeys(p) && x != SlotKey(p[|p| - 1])
      ensures x in OpenKeys(init)
    {
      var k :| 0 <= k < |p| && p[k].open && SlotKey(p[k]) == x;
      assert init[k] == p[k];
    }
  }

  lemma {:induction false} OpenKeysCount(p: seq<Slot>)
    requires forall k | 0 <= k < |p| :: p[k].open
    requires forall j, k | 0 <= j < k < |p| :: SlotKey(p[j]) != SlotKey(p[k])
    ensures |OpenKeys(p)| == |p|
  {
    if p == [] {
      assert OpenKeys(p) == {};
    } else {
      var (init, last) := (p[..|p| - 1], p[|p| - 1]);
      OpenKeysCount(init);
      OpenKeysOfInit(p);
      assert SlotKey(last) !in OpenKeys(init);
    }
  }

  lemma {:induction false} OpenKeysAtMost(p: seq<Slot>)
    ensures |OpenKeys(p)| <= |p|
  {
    if p == [] {
      assert OpenKeys(p) == {};
    } else {
      var (init, last) := (p[..|p| - 1], p[|p| - 1]);
      OpenKeysAtMost(init);
      if last.open {
        OpenKeysOfInit(p);
      } else {
        forall x | x in OpenKeys(p)
          ensures x in OpenKeys(init)
        {
          var k :| 0 <= k < |p| && p[k].open && SlotKey(p[k]) == x;
          assert init[k] == p[k];
        }
        SubsetSize(OpenKeys(p), OpenKeys(init));
      }
    }
  }

  /** The stored hosts are C strings. */
  ghost predicate Plain(p: Pool) {
    forall k | 0 <= k < MAX_CLIENTS :: NUL !in p[k].host
  }

  /** The key of a host that is shorter than what is compared determines the host. */
  lemma ShortKeyMeansHost(a: string, b: string, port: U16, port': U16)
    requires NUL !in a && NUL !in b && |a| < COMPARED && KeyOf(a, port) == KeyOf(b, port')
    ensures a == b && port == port'
  {
    var (x, y) := (KeyOf(a, port).host, KeyOf(b, port').host);
    forall i: nat | i < COMPARED
      ensures CharAt(a, i) == CharAt(b, i)
    {
      assert x[i] == CharAt(a, i) && y[i] == CharAt(b, i);
    }
    EndsWhere(b, |a|);
    EndsWhere(a, |b|);
    assert forall i | 0 <= i < |a| :: a[i] == CharAt(a, i) && b[i] == CharAt(b, i);
  }

  lemma EndsWhere(s: string, n: nat)
    requires NUL !in s
    ensures CharAt(s, n) == NUL <==> |s| <= n
  {
    assert n < |s| ==> s[n] in s;
  }

  /** Pigeonhole: while an endpoint out of at most ten is not connected, some slot is free. */
  lemma FreeSlotExists(p: Pool, keys: set<Key>, missing: Key)
    requires EndpointsUnique(p) && OpenKeys(p) <= keys && |keys| <= MAX_CLIENTS
    requires missing in keys && missing !in OpenKeys(p)
    ensures FirstClosed(p, 0) < MAX_CLIENTS
  {
    if FirstClosed(p, 0) == MAX_CLIENTS {
      OpenKeysCount(p);
      assert OpenKeys(p) <= keys - {missing};
      SubsetSize(OpenKeys(p), keys - {missing});
      assert false;
    }
  }
}
